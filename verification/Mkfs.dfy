/** The image builder mkfs.c: blocks are handed out one after the other by `iappend`, and the free map
    is written once at the end. The image is read back with the kernel's own definitions. */
module Mkfs {
  import opened Common
  import opened Blocks
  import opened RedoLog
  import opened Inodes
  import F = Fs

  const T_DIR: int := 1
  const T_FILE: int := 2
  const ROOTINO: nat := 1

  // ---------- layout ----------

  /** The layout that `main` computes: boot block, superblock, log, inode blocks, free map, data. */
  function LayoutOf(fssize: nat, ninodes: nat, nlog: nat): Super {
    var ninodeblocks := ninodes / IPB + 1;
    var nbitmap := fssize / BPB + 1;
    Super(fssize, 2 + nlog, 2 + nlog + ninodeblocks, 2 + nlog + ninodeblocks + nbitmap)
  }

  /** The regions do not overlap, and every inode and every bit of the map has its place. */
  lemma LayoutFits(fssize: nat, ninodes: nat, nlog: nat)
    requires LayoutOf(fssize, ninodes, nlog).nmeta <= fssize <= UINT_LIMIT
    ensures var sb := LayoutOf(fssize, ninodes, nlog);
            && (forall d: Disk | |d| == fssize :: SuperOk(sb, d))
            && (forall n | 0 <= n < ninodes :: sb.inodestart <= F.IBlock(sb, n) < sb.bmapstart)
            && (forall b | 0 <= b < fssize :: sb.bmapstart <= BBlock(sb, b) < sb.nmeta)
            && sb.inodestart == 2 + nlog
            && F.IBlock(sb, ninodes) == sb.bmapstart - 1 && BBlock(sb, fssize) == sb.nmeta - 1
  {
    var sb := LayoutOf(fssize, ninodes, nlog);
    forall b | 0 <= b < fssize
      ensures BBlock(sb, b) < sb.nmeta
    {
      assert b / BPB <= fssize / BPB;
    }
    forall n | 0 <= n < ninodes
      ensures F.IBlock(sb, n) < sb.bmapstart
    {
      assert n / IPB <= ninodes / IPB;
    }
    assert (fssize - 1) / BPB <= fssize / BPB;
  }

  // ---------- invariant ----------

  /** No block at or past the end of file n is allocated. */
  ghost predicate Tight(ns: seq<Inode>, disk: Disk, n: nat) {
    n < |ns| && forall bn | 0 <= bn < MAXFILE && bn * BSIZE >= ns[n].size :: BlockOf(ns, disk, n, bn) == 0
  }

  ghost predicate OwnsRange(owner: map<nat, Slot>, lo: nat, hi: nat) {
    forall b: nat :: b in owner <==> lo <= b < hi
  }

  /** The blocks handed out so far are owned by exactly one slot each, and the rest of the data area and the
      free map are still zero. */
  ghost predicate Handed(sb: Super, ns: seq<Inode>, disk: Disk, freeblock: nat, owner: map<nat, Slot>) {
    && SuperOk(sb, disk) && sb.nmeta <= freeblock <= sb.size
    && SlotsOwn(sb, ns, disk, owner) && OwnsRange(owner, sb.nmeta, freeblock)
    && (forall b | freeblock <= b < sb.size :: disk[b] == ZeroBlock())
    && (forall b | sb.bmapstart <= b < sb.nmeta :: disk[b] == ZeroBlock())
  }

  /** The next free block goes into an empty address of inode n. */
  lemma HandAddr(sb: Super, ns: seq<Inode>, disk: Disk, b: nat, owner: map<nat, Slot>, n: nat, i: nat)
    requires Handed(sb, ns, disk, b, owner) && b < sb.size && n < |ns| && i <= NDIRECT && ns[n].addrs[i] == 0
    ensures var s0 := if i < NDIRECT then Direct(n, i) else IndPtr(n);
            && Handed(sb, SetAddr(ns, n, i, b), disk, b + 1, owner[b := s0])
            && F.Extended(ns, disk, SetAddr(ns, n, i, b), disk, n)
  {
    hide SlotsOwn, GetWord, ZeroBlock;
    var s0 := if i < NDIRECT then Direct(n, i) else IndPtr(n);
    var ns', owner' := SetAddr(ns, n, i, b), owner[b := s0];
    forall s | ValidSlot(|ns|, s) && s != s0
      ensures SlotVal(ns', disk, s) == SlotVal(ns, disk, s)
    {
    }
    OwnAdd(sb, ns, disk, owner, ns', disk, s0, b);
    assert Grows(ns, disk, owner, ns', disk, owner', {s0});
    F.FillExtends(sb, ns, disk, owner, ns', disk, owner', s0, b);
  }

  /** The next free block goes into an empty entry of inode n's indirect block. */
  lemma HandEntry(sb: Super, ns: seq<Inode>, disk: Disk, b: nat, owner: map<nat, Slot>, n: nat, j: nat)
    requires Handed(sb, ns, disk, b, owner) && b < sb.size && n < |ns| && j < NINDIRECT && ns[n].addrs[NDIRECT] != 0
    requires IndWord(disk, ns[n].addrs[NDIRECT], j) == 0
    ensures var a := ns[n].addrs[NDIRECT];
            && a < |disk| && b < UINT_LIMIT
            && Handed(sb, ns, SetEntry(disk, a, j, b), b + 1, owner[b := Entry(n, j)])
            && F.Extended(ns, disk, ns, SetEntry(disk, a, j, b), n)
            && IndWord(SetEntry(disk, a, j, b), a, j) == b
  {
    hide SlotsOwn, GetWord, ZeroBlock, IndWord, PutWord;
    var a := ns[n].addrs[NDIRECT];
    IndBlockOwned(sb, ns, disk, owner, n);
    SetEntrySlots(sb, ns, disk, owner, n, j, b);
    var d, owner' := SetEntry(disk, a, j, b), owner[b := Entry(n, j)];
    OwnAdd(sb, ns, disk, owner, ns, d, Entry(n, j), b);
    assert Grows(ns, disk, owner, ns, d, owner', {Entry(n, j)});
    F.FillExtends(sb, ns, disk, owner, ns, d, owner', Entry(n, j), b);
  }

  /** The file block a slot stands for; an indirect pointer stands for the first block behind it. */
  function Index(s: Slot): nat {
    match s
    case Direct(_, i) => i
    case IndPtr(_) => NDIRECT
    case Entry(_, j) => NDIRECT + j
  }

  /** Owned file blocks lie below the end of their file, which for file n is `end`. */
  ghost predicate Snug(ns: seq<Inode>, owner: map<nat, Slot>, n: nat, end: nat) {
    forall b | b in owner ::
      owner[b].inum < |ns| && Index(owner[b]) * BSIZE < if owner[b].inum == n then end else ns[owner[b].inum].size
  }

  ghost predicate AllHoleFree(ns: seq<Inode>, disk: Disk) {
    forall n | 0 <= n < |ns| :: HoleFree(ns, disk, n)
  }

  lemma SnugIsTight(sb: Super, ns: seq<Inode>, disk: Disk, owner: map<nat, Slot>, n: nat)
    requires SlotsOwn(sb, ns, disk, owner) && n < |ns| && Snug(ns, owner, n, ns[n].size)
    ensures Tight(ns, disk, n)
  {
    hide SlotVal;
    forall bn | 0 <= bn < MAXFILE && bn * BSIZE >= ns[n].size
      ensures BlockOf(ns, disk, n, bn) == 0
    {
      assert ValidSlot(|ns|, DataSlot(n, bn)) && Index(DataSlot(n, bn)) == bn;
    }
  }

  /** New ownership is confined to block bn of file n and its indirect pointer. */
  ghost predicate OnlyAdds(owner: map<nat, Slot>, owner': map<nat, Slot>, n: nat, bn: nat) {
    && (forall b | b in owner :: b in owner' && owner'[b] == owner[b])
    && (forall b | b in owner' && b !in owner ::
          owner'[b] == DataSlot(n, bn) || (owner'[b] == IndPtr(n) && bn >= NDIRECT))
  }

  class Image {
    const sb: Super
    var disk: Disk
    var ns: seq<Inode>
    var freeblock: nat
    var freeinode: nat
    ghost var owner: map<nat, Slot>

    /** Files have no holes, no blocks and no bytes past their ends, and exactly the blocks they need. */
    ghost predicate Valid()
      reads this
    {
      && Handed(sb, ns, disk, freeblock, owner) && AllHoleFree(ns, disk)
      && (forall n | 0 <= n < |ns| :: Snug(ns, owner, n, ns[n].size))
      && ZeroPast(ns, disk)
      && freeblock == sb.nmeta + NeedSum(Sizes(ns))
    }

    /** An address of the inode copy din, filled with the next free block if it is empty. */
    method NeedAddr(n: nat, din: Inode, i: nat) returns (din': Inode)
      requires n < |ns| && i <= NDIRECT && (din.addrs[i] == 0 ==> freeblock < sb.size)
      requires Handed(sb, ns[n := din], disk, freeblock, owner)
      modifies this`freeblock, this`owner
      ensures Handed(sb, ns[n := din'], disk, freeblock, owner)
                && F.Extended(ns[n := din], disk, ns[n := din'], disk, n)
      ensures din'.addrs[i] != 0 && forall j | 0 <= j <= NDIRECT && j != i :: din'.addrs[j] == din.addrs[j]
      ensures freeblock == old(freeblock) + if din.addrs[i] == 0 then 1 else 0
      ensures din'.addrs[i] == if din.addrs[i] == 0 then old(freeblock) else din.addrs[i]
      ensures OnlyAddsSlot(old(owner), owner, if i < NDIRECT then Direct(n, i) else IndPtr(n))
    {
      hide SlotsOwn, F.Extended, ZeroBlock;
      ghost var cur := ns[n := din];
      din' := din;
      if din'.addrs[i] == 0 {
        HandAddr(sb, cur, disk, freeblock, owner, n, i);
        din' := din'.(addrs := din'.addrs[i := freeblock]);
        assert ns[n := din'] == SetAddr(cur, n, i, freeblock);
        owner := owner[freeblock := if i < NDIRECT then Direct(n, i) else IndPtr(n)];
        freeblock := freeblock + 1;
      } else {
        F.ExtendedRefl(cur, disk, n);
      }
    }

    /** An entry of the indirect block of the inode copy din, filled if it is empty. */
    method NeedEntry(n: nat, din: Inode, j: nat) returns (x: nat)
      requires n < |ns| && j < NINDIRECT && din.addrs[NDIRECT] != 0
      requires IndWord(disk, din.addrs[NDIRECT], j) == 0 ==> freeblock < sb.size
      requires Handed(sb, ns[n := din], disk, freeblock, owner)
      modifies this`disk, this`freeblock, this`owner
      ensures Handed(sb, ns[n := din], disk, freeblock, owner)
                && F.Extended(ns[n := din], old(disk), ns[n := din], disk, n)
      ensures x == IndWord(disk, din.addrs[NDIRECT], j) && x != 0
      ensures freeblock == old(freeblock) + if IndWord(old(disk), din.addrs[NDIRECT], j) == 0 then 1 else 0
      ensures OnlyAddsSlot(old(owner), owner, Entry(n, j))
    {
      hide SlotsOwn, F.Extended, ZeroBlock, GetWord, SetEntry;
      ghost var cur := ns[n := din];
      var a := din.addrs[NDIRECT];
      IndBlockOwned(sb, cur, disk, owner, n);
      x := GetWord(disk[a], j);
      if x == 0 {
        HandEntry(sb, cur, disk, freeblock, owner, n, j);
        disk := SetEntry(disk, a, j, freeblock);
        x := freeblock;
        owner := owner[freeblock := Entry(n, j)];
        freeblock := freeblock + 1;
      } else {
        F.ExtendedRefl(cur, disk, n);
      }
    }

    /** The first half of the loop of `iappend`: the sector of file block fbn, handed out if need be. */
    method Locate(n: nat, din: Inode, fbn: nat) returns (din': Inode, x: nat)
      requires n < |ns| && fbn < MAXFILE && freeblock + Missing(ns[n := din], disk, n, fbn) <= sb.size
      requires Handed(sb, ns[n := din], disk, freeblock, owner)
      modifies this`disk, this`freeblock, this`owner
      ensures Handed(sb, ns[n := din'], disk, freeblock, owner)
      ensures F.Extended(ns[n := din], old(disk), ns[n := din'], disk, n)
      ensures x == BlockOf(ns[n := din'], disk, n, fbn) && 0 != x < freeblock <= |disk|
      ensures OnlyAdds(old(owner), owner, n, fbn)
      ensures freeblock == old(freeblock) + Missing(ns[n := din], old(disk), n, fbn)
    {
      hide Handed, F.Extended, GetWord;
      if fbn < NDIRECT {
        din' := NeedAddr(n, din, fbn);
        x := din'.addrs[fbn];
      } else {
        if din.addrs[NDIRECT] == 0 {
          FreshZero(sb, ns[n := din], disk, freeblock, owner, fbn - NDIRECT);
        }
        din' := NeedAddr(n, din, NDIRECT);
        ghost var d1 := disk;
        x := NeedEntry(n, din', fbn - NDIRECT);
        F.ExtendedTrans(ns[n := din], d1, ns[n := din'], d1, ns[n := din'], disk, n);
      }
      HandedBelow(sb, ns[n := din'], disk, freeblock, owner, n, fbn);
    }

    /** `iappend`: false is the failing assertion that the file is too large. The image must have room for
        exactly the blocks that are missing. */
    method Iappend(n: nat, data: seq<Byte>) returns (ok: bool)
      requires Valid() && n < |ns|
      requires freeblock + Need(F.Min(ns[n].size + |data|, MAXFILE * BSIZE)) - Need(ns[n].size) <= sb.size
      modifies this`disk, this`ns, this`freeblock, this`owner
      ensures ok <==> old(ns)[n].size + |data| <= MAXFILE * BSIZE
      ensures !ok ==> ns == old(ns)
      ensures ok ==>
                && Valid() && Appended(old(ns), old(disk), ns, disk, n, data)
                && ns[n].size == old(ns)[n].size + |data|
    {
      hide Handed, F.WriteProgress, F.Extended, BlockOf, ByteAt, AllHoleFree, F.Splice, Snug, OnlyAdds, ZeroPast, Need;
      var din := ns[n];
      var off0, tot := din.size, 0;
      assert ns[n := din] == ns;
      F.WriteNothing(sb, ns, disk, n, off0, data, {});
      SizeInRange(ns, disk, n);
      while tot < |data|
        invariant 0 <= tot <= |data| && ns == old(ns) && off0 + tot <= MAXFILE * BSIZE
        invariant Handed(sb, ns[n := din], disk, freeblock, owner)
        invariant F.WriteProgress(old(ns), old(disk), ns[n := din], disk, n, off0, data, tot, off0)
        invariant Snug(ns, owner, n, off0 + tot)
        invariant freeblock == old(freeblock) + Need(off0 + tot) - Need(off0)
      {
        var off := off0 + tot;
        var fbn := off / BSIZE;
        if fbn >= MAXFILE {
          return false;
        }
        ghost var before, d0, o0 := ns[n := din], disk, owner;
        var n1 := F.Min(|data| - tot, (fbn + 1) * BSIZE - off);
        MissingIs(sb, ns, old(disk), before, disk, freeblock, owner, n, off0, data, tot);
        NeedChunk(off, n1, F.Min(off0 + |data|, MAXFILE * BSIZE));
        var x;
        din, x := Locate(n, din, fbn);
        var d := F.PutChunk(disk, x, off % BSIZE, data[tot..tot + n1]);
        AppendStep(sb, ns, old(disk), before, d0, ns[n := din], disk, freeblock, owner, n, off0, data, tot, n1, off0,
          d);
        SnugStep(ns, o0, owner, n, off0, tot, n1);
        disk := d;
        tot := tot + n1;
      }
      AppendEnd(sb, old(ns), old(disk), ns[n := din], disk, freeblock, owner, n, off0, data);
      ghost var cur := ns[n := din];
      assert cur[n := cur[n].(size := off0 + |data|)] == ns[n := din.(size := off0 + |data|)];
      ns := ns[n := din.(size := off0 + |data|)];
      SumUpdate(old(ns), ns, n);
      return true;
    }

    /** An image of zeroed sectors, before any inode is allocated. */
    constructor (super: Super, ninodes: nat)
      requires super.size <= UINT_LIMIT && 0 < super.nmeta <= super.size
                 && super.bmapstart + (super.size - 1) / BPB < super.nmeta
      ensures Valid() && sb == super && |ns| == ninodes && freeblock == super.nmeta && freeinode == 1 && owner == map[]
      ensures forall n | 0 <= n < ninodes :: Blank(ns[n])
    {
      hide ZeroBlock;
      sb := super;
      disk := seq(super.size, _ => ZeroBlock());
      ns := seq(ninodes, _ => Inode(0, 0, seq(NDIRECT + 1, _ => 0)));
      freeblock, freeinode := super.nmeta, 1;
      owner := map[];
      new;
      BlankImage(ns, disk);
    }

    /** `ialloc`: the next inode number, with an empty file. */
    method Ialloc(typ: int) returns (inum: nat)
      requires Valid() && freeinode < |ns| && Blank(ns[freeinode]) && typ != 0
      modifies this`ns, this`freeinode
      ensures Valid() && inum == old(freeinode) && freeinode == inum + 1 && |ns| == old(|ns|)
      ensures ns[inum].typ == typ && ns[inum].size == 0
      ensures forall m | 0 <= m < |ns| && m != inum :: ns[m] == old(ns)[m]
    {
      hide SlotVal, SlotsOwn, ZeroBlock, OwnsRange, ZeroPast, SameBytes, NeedSum, Sizes, Snug;
      inum := freeinode;
      freeinode := freeinode + 1;
      ghost var before := ns[inum];
      var blank: Addrs := seq(NDIRECT + 1, _ => 0);
      assert blank == before.addrs;
      EmptyInode(sb, ns, disk, owner, inum, typ);
      SameZeros(ns, disk, ns[inum := Inode(typ, 0, blank)], disk);
      ns := ns[inum := Inode(typ, 0, blank)];
    }

    /** The inodes that `main` allocates and the bytes that it appends, in any order: false means that some
        file has become too large. */
    method Run(cmds: seq<Cmd>) returns (ok: bool)
      requires Valid() && BuiltBy(ns, disk, freeinode, []) && Sound(cmds, |ns|)
      requires sb.nmeta + NeedSum(FinalSizes(cmds, |ns|)) <= sb.size
      modifies this`disk, this`ns, this`freeblock, this`freeinode, this`owner
      ensures |ns| == old(|ns|)
      ensures ok <==> AllFit(cmds, |ns|)
      ensures ok ==> Valid() && BuiltBy(ns, disk, freeinode, cmds)
    {
      hide Handed, AllHoleFree, Content, Snug, ZeroPast, BuiltBy, Sound, NeedSum, Sizes, Need, FinalSizes, AllFit,
        Blank;
      var i := 0;
      while i < |cmds|
        invariant 0 <= i <= |cmds| && |ns| == old(|ns|) && Valid() && BuiltBy(ns, disk, freeinode, cmds[..i])
      {
        SoundAt(cmds, |ns|, i);
        BuiltNext(ns, disk, freeinode, cmds, i);
        ghost var ns0, d0, f0 := ns, disk, freeinode;
        match cmds[i] {
          case NewInode(dir) =>
            var inum := Ialloc(if dir then T_DIR else T_FILE);
            BuiltNew(ns0, ns, disk, f0, cmds, i);
          case Append(n, bytes) =>
            RoomFor(ns, disk, freeinode, cmds, i);
            ok := Iappend(n, bytes);
            if !ok {
              TooLarge(ns0, d0, f0, cmds, i);
              return false;
            }
            BuiltAppend(ns0, d0, ns, disk, f0, cmds, i);
        }
        i := i + 1;
      }
      assert cmds[..i] == cmds;
      BuiltFits(ns, disk, freeinode, cmds);
      return true;
    }

    /** The last change of `main` to the root directory: its size rounded up. */
    method RoundRoot()
      requires Valid() && ROOTINO < |ns|
      modifies this`ns
      ensures ns == old(ns)[ROOTINO := old(ns)[ROOTINO].(size := RootSize(old(ns)[ROOTINO].size))]
      ensures Handed(sb, ns, disk, freeblock, owner) && SameBytes(old(ns), disk, ns, disk)
      ensures forall n | 0 <= n < |ns| && n != ROOTINO :: HoleFree(ns, disk, n)
      ensures forall bn | 0 <= bn < MAXFILE ::
                BlockOf(ns, disk, ROOTINO, bn) != 0 <==> bn * BSIZE < old(ns)[ROOTINO].size
      ensures RootSize(old(ns)[ROOTINO].size) <= MAXFILE * BSIZE ==>
                (HoleFree(ns, disk, ROOTINO) <==> old(ns)[ROOTINO].size % BSIZE != 0)
    {
      hide SlotsOwn, SlotVal, ZeroBlock, OwnsRange, ByteAt, Snug, NeedSum, Need, ZeroPast, Sizes;
      Rounded(sb, ns, disk, freeblock, owner);
      ns := ns[ROOTINO := ns[ROOTINO].(size := (ns[ROOTINO].size / BSIZE + 1) * BSIZE)];
    }

    /** mkfs's `balloc`: the free map says that exactly the blocks below freeblock are in use, which
        is the ownership invariant the kernel relies on. */
    method WriteBitmap()
      requires Handed(sb, ns, disk, freeblock, owner) && freeblock < BPB
      modifies this`disk
      ensures OwnInv(sb, ns, disk, owner) && SameBytes(ns, old(disk), ns, disk)
      ensures forall b | 0 <= b < sb.size :: InUse(sb, disk, b) <==> b < freeblock
      ensures SameBlocks(ns, old(disk), ns, disk)
    {
      hide SlotVal, SlotsOwn, ZeroBlock, BlockBit;
      var buf := ZeroBlock();
      NoBits(buf);
      for i := 0 to freeblock
        invariant forall j | 0 <= j < BPB :: BlockBit(buf, j) <==> j < i
      {
        buf := WithBlockBit(buf, i, true);
      }
      ghost var d := disk;
      disk := disk[sb.bmapstart := buf];
      BitmapOwns(sb, ns, d, buf, freeblock, owner);
    }
  }

  ghost predicate OnlyAddsSlot(owner: map<nat, Slot>, owner': map<nat, Slot>, s: Slot) {
    && (forall b | b in owner :: b in owner' && owner'[b] == owner[b])
    && (forall b | b in owner' && b !in owner :: owner'[b] == s)
  }

  lemma HandedBelow(sb: Super, ns: seq<Inode>, disk: Disk, freeblock: nat, owner: map<nat, Slot>, n: nat, bn: nat)
    requires Handed(sb, ns, disk, freeblock, owner) && n < |ns| && bn < MAXFILE && BlockOf(ns, disk, n, bn) != 0
    ensures BlockOf(ns, disk, n, bn) < freeblock <= |disk|
  {
    hide SlotsOwn, BlockOf;
    DataOwned(sb, ns, disk, owner, n, bn);
  }

  /** File n has grown by data, the other files are as before. */
  ghost predicate Appended(ns: seq<Inode>, disk: Disk, ns': seq<Inode>, disk': Disk, n: nat, data: seq<Byte>) {
    && n < |ns| == |ns'| && ns[n].size <= MAXFILE * BSIZE && ns'[n].size <= MAXFILE * BSIZE
    && Content(ns', disk', n) == Content(ns, disk, n) + data
    && ns'[n].typ == ns[n].typ
    && F.OthersSame(ns, disk, ns', disk', n)
  }

  // ---------- how many blocks ----------

  /** The blocks of a file of the given size: data blocks, and the indirect block of a large file. */
  function Need(size: nat): nat {
    (size + BSIZE - 1) / BSIZE + if size > NDIRECT * BSIZE then 1 else 0
  }

  function NeedSum(sizes: seq<nat>): nat {
    if sizes == [] then 0 else NeedSum(sizes[..|sizes| - 1]) + Need(sizes[|sizes| - 1])
  }

  ghost function Sizes(ns: seq<Inode>): (z: seq<nat>)
    ensures |z| == |ns| && forall i | 0 <= i < |ns| :: z[i] == ns[i].size
  {
    seq(|ns|, i requires 0 <= i < |ns| => ns[i].size)
  }

  lemma {:induction false} SumAt(a: seq<nat>, n: nat, x: nat)
    requires n < |a|
    ensures NeedSum(a[n := x]) == NeedSum(a) - Need(a[n]) + Need(x)
    decreases |a|
  {
    hide Need;
    var m := |a| - 1;
    if n == m {
      assert a[n := x][..m] == a[..m];
    } else {
      assert a[n := x][..m] == a[..m][n := x];
      SumAt(a[..m], n, x);
    }
  }

  lemma {:induction false} SumMonotone(a: seq<nat>, b: seq<nat>)
    requires |a| == |b| && forall i | 0 <= i < |a| :: a[i] <= b[i]
    ensures NeedSum(a) <= NeedSum(b)
    decreases |a|
  {
    if a != [] {
      var m := |a| - 1;
      SumMonotone(a[..m], b[..m]);
      NeedMonotone(a[m], b[m]);
    }
  }

  lemma NeedMonotone(x: nat, y: nat)
    requires x <= y
    ensures Need(x) <= Need(y)
  {
  }

  lemma {:induction false} SumZero(a: seq<nat>)
    requires forall i | 0 <= i < |a| :: a[i] == 0
    ensures NeedSum(a) == 0
    decreases |a|
  {
    if a != [] {
      SumZero(a[..|a| - 1]);
    }
  }

  lemma SumUpdate(ns: seq<Inode>, ns': seq<Inode>, n: nat)
    requires n < |ns| == |ns'| && forall m | 0 <= m < |ns| && m != n :: ns'[m].size == ns[m].size
    ensures NeedSum(Sizes(ns')) == NeedSum(Sizes(ns)) - Need(ns[n].size) + Need(ns'[n].size)
  {
    hide Need, NeedSum;
    assert Sizes(ns') == Sizes(ns)[n := ns'[n].size];
    SumAt(Sizes(ns), n, ns'[n].size);
  }

  /** A chunk of at most the rest of a block needs what its first byte needs. */
  lemma NeedChunk(off: nat, m: nat, top: nat)
    requires 0 < m <= BSIZE - off % BSIZE && off + m <= top
    ensures Need(off) <= Need(off + 1) == Need(off + m) <= Need(top)
  {
    NeedMonotone(off, off + 1);
    NeedMonotone(off + m, top);
  }

  /** The blocks that `iappend` hands out to reach block bn of file n. */
  ghost function Missing(ns: seq<Inode>, disk: Disk, n: nat, bn: nat): nat
    requires n < |ns| && bn < MAXFILE
  {
    (if BlockOf(ns, disk, n, bn) == 0 then 1 else 0) + if bn >= NDIRECT && ns[n].addrs[NDIRECT] == 0 then 1 else 0
  }

  /** In the next block to be handed out all indirect entries are empty. */
  lemma FreshZero(sb: Super, ns: seq<Inode>, disk: Disk, freeblock: nat, owner: map<nat, Slot>, j: nat)
    requires Handed(sb, ns, disk, freeblock, owner) && freeblock < sb.size && j < NINDIRECT
    ensures IndWord(disk, freeblock, j) == 0
  {
    hide SlotsOwn, OwnsRange;
  }

  /** In the middle of an append exactly the blocks below off are there, so byte off misses what a file that is one
      byte longer needs more. */
  lemma MissingIs(sb: Super, ns0: seq<Inode>, disk0: Disk, ns: seq<Inode>, disk: Disk, freeblock: nat,
                  owner: map<nat, Slot>, n: nat, off0: nat, data: seq<Byte>, tot: nat)
    requires n < |ns0| == |ns| && ns0[n].size == off0 && off0 + tot < MAXFILE * BSIZE && tot <= |data|
    requires AllHoleFree(ns0, disk0) && Snug(ns0, owner, n, off0 + tot)
    requires Handed(sb, ns, disk, freeblock, owner)
    requires F.WriteProgress(ns0, disk0, ns, disk, n, off0, data, tot, off0)
    ensures Missing(ns, disk, n, (off0 + tot) / BSIZE) == Need(off0 + tot + 1) - Need(off0 + tot)
  {
    hide SlotsOwn, AllHoleFree, Snug, Handed, F.WriteProgress, BlockOf;
    var off := off0 + tot;
    var bn := off / BSIZE;
    if off % BSIZE != 0 {
      Reached(ns0, disk0, ns, disk, n, off0, data, tot, bn);
      PointerThere(ns, disk, n, bn);
    } else {
      NotYet(sb, ns0, ns, disk, freeblock, owner, n, off, bn);
      if bn > NDIRECT {
        Reached(ns0, disk0, ns, disk, n, off0, data, tot, NDIRECT);
        PointerThere(ns, disk, n, NDIRECT);
      }
    }
  }

  lemma Reached(ns0: seq<Inode>, disk0: Disk, ns: seq<Inode>, disk: Disk, n: nat, off0: nat, data: seq<Byte>, tot: nat,
                bn: nat)
    requires n < |ns0| == |ns| && ns0[n].size == off0 && tot <= |data| && bn < MAXFILE && bn * BSIZE < off0 + tot
    requires AllHoleFree(ns0, disk0) && F.WriteProgress(ns0, disk0, ns, disk, n, off0, data, tot, off0)
    ensures BlockOf(ns, disk, n, bn) != 0
  {
    hide BlockOf;
    if bn * BSIZE < off0 {
      assert HoleFree(ns0, disk0, n);
      F.AllocatedStays(ns0, disk0, ns, disk, n, off0, data, tot, off0, bn);
    } else {
      assert F.InRange(off0, tot, bn);
    }
  }

  lemma PointerThere(ns: seq<Inode>, disk: Disk, n: nat, bn: nat)
    requires n < |ns| && bn < MAXFILE && BlockOf(ns, disk, n, bn) != 0
    ensures bn >= NDIRECT ==> ns[n].addrs[NDIRECT] != 0
  {
  }

  lemma NotYet(sb: Super, ns0: seq<Inode>, ns: seq<Inode>, disk: Disk, freeblock: nat, owner: map<nat, Slot>, n: nat,
               off: nat, bn: nat)
    requires n < |ns0| == |ns| && Snug(ns0, owner, n, off) && Handed(sb, ns, disk, freeblock, owner)
    requires bn < MAXFILE && off <= bn * BSIZE
    ensures BlockOf(ns, disk, n, bn) == 0
    ensures bn == NDIRECT ==> ns[n].addrs[NDIRECT] == 0
  {
    hide IndWord;
    var s := DataSlot(n, bn);
    assert ValidSlot(|ns|, s) && Index(s) == bn;
    assert ValidSlot(|ns|, IndPtr(n)) && Index(IndPtr(n)) == NDIRECT;
  }

  /** Bytes past the end of a file are zero. */
  ghost predicate ZeroPast(ns: seq<Inode>, disk: Disk) {
    forall n, k | 0 <= n < |ns| && ns[n].size <= k < MAXFILE * BSIZE :: ByteAt(ns, disk, n, k) == 0
  }

  lemma SizeInRange(ns: seq<Inode>, disk: Disk, n: nat)
    requires AllHoleFree(ns, disk) && n < |ns|
    ensures ns[n].size <= MAXFILE * BSIZE && HoleFree(ns, disk, n)
  {
  }

  /** Writing below freeblock keeps the handed-out state. */
  lemma HandedWrite(sb: Super, ns: seq<Inode>, disk: Disk, freeblock: nat, owner: map<nat, Slot>, x: nat, y: Block)
    requires Handed(sb, ns, disk, freeblock, owner) && sb.nmeta <= x < freeblock
    requires SlotsOwn(sb, ns, disk[x := y], owner)
    ensures Handed(sb, ns, disk[x := y], freeblock, owner)
  {
    hide SlotsOwn;
  }

  lemma AppendStep(sb: Super, ns0: seq<Inode>, disk0: Disk, ns: seq<Inode>, disk: Disk, ns1: seq<Inode>, disk1: Disk,
                   freeblock: nat, owner: map<nat, Slot>, n: nat, off: nat, data: seq<Byte>, tot: nat, m: nat,
                   size: nat, d: Disk)
    requires n < |ns| == |ns1| && (off + tot) / BSIZE < MAXFILE && tot + m <= |data|
               && 0 < m <= BSIZE - (off + tot) % BSIZE
    requires 0 != BlockOf(ns1, disk1, n, (off + tot) / BSIZE) < freeblock <= |disk1|
    requires d == F.PutChunk(disk1, BlockOf(ns1, disk1, n, (off + tot) / BSIZE), (off + tot) % BSIZE,
               data[tot..tot + m])
    requires F.WriteProgress(ns0, disk0, ns, disk, n, off, data, tot, size) && F.Extended(ns, disk, ns1, disk1, n)
    requires Handed(sb, ns1, disk1, freeblock, owner)
    ensures Handed(sb, ns1, d, freeblock, owner) && F.WriteProgress(ns0, disk0, ns1, d, n, off, data, tot + m, size)
  {
    hide SlotsOwn, F.WriteProgress, F.Extended, BlockOf, F.Splice, OwnsRange;
    F.ExtendProgress(ns0, disk0, ns, disk, ns1, disk1, n, off, data, tot, size);
    F.DataProgress(sb, ns0, disk0, ns1, disk1, owner, n, off, data, tot, m, size, d);
    var b := BlockOf(ns1, disk1, n, (off + tot) / BSIZE);
    DataOwned(sb, ns1, disk1, owner, n, (off + tot) / BSIZE);
    HandedWrite(sb, ns1, disk1, freeblock, owner, b, F.Splice(disk1[b], (off + tot) % BSIZE, data[tot..tot + m]));
  }

  lemma SnugStep(ns: seq<Inode>, o0: map<nat, Slot>, o1: map<nat, Slot>, n: nat, off: nat, tot: nat, m: nat)
    requires Snug(ns, o0, n, off + tot) && n < |ns| && m > 0 && (off + tot) / BSIZE < MAXFILE
    requires OnlyAdds(o0, o1, n, (off + tot) / BSIZE)
    ensures Snug(ns, o1, n, off + tot + m)
  {
    var bn := (off + tot) / BSIZE;
    assert Index(DataSlot(n, bn)) == bn && DataSlot(n, bn).inum == n && bn * BSIZE <= off + tot;
  }

  /** The last two statements of `iappend`. */
  lemma AppendEnd(sb: Super, ns0: seq<Inode>, disk0: Disk, ns: seq<Inode>, disk: Disk, freeblock: nat,
                  owner: map<nat, Slot>, n: nat, off: nat, data: seq<Byte>)
    requires F.WriteProgress(ns0, disk0, ns, disk, n, off, data, |data|, off) && Handed(sb, ns, disk, freeblock, owner)
    requires n < |ns0| == |ns| && off == ns0[n].size && off + |data| <= MAXFILE * BSIZE
    requires AllHoleFree(ns0, disk0) && Snug(ns0, owner, n, off + |data|) && ZeroPast(ns0, disk0)
    ensures var z := ns[n := ns[n].(size := off + |data|)];
            && Handed(sb, z, disk, freeblock, owner) && AllHoleFree(z, disk)
            && (forall m | 0 <= m < |z| :: Snug(z, owner, m, z[m].size))
            && ZeroPast(z, disk)
            && Appended(ns0, disk0, z, disk, n, data)
  {
    hide SlotsOwn, F.WriteProgress, SlotVal, ByteAt, Content, ZeroBlock, OwnsRange, Snug, ZeroPast;
    var z := ns[n := ns[n].(size := off + |data|)];
    F.ResizeProgress(sb, ns0, disk0, ns, disk, n, off, data, off, off + |data|, {}, {});
    F.SizeKeepsSlots(ns, disk, n, off + |data|);
    F.SameSlotsOwn(sb, ns, z, disk, owner);
    assert HoleFree(ns0, disk0, n);
    F.WriteMeans(ns0, disk0, z, disk, n, off, data, off, off + |data|);
    forall m | 0 <= m < |z|
      ensures HoleFree(z, disk, m)
    {
      assert HoleFree(ns0, disk0, m);
    }
    SnugAll(ns0, z, owner, n, off + |data|);
    StillZero(ns0, disk0, z, disk, n, off, data);
  }

  lemma StillZero(ns0: seq<Inode>, disk0: Disk, ns: seq<Inode>, disk: Disk, n: nat, off: nat, data: seq<Byte>)
    requires F.WriteProgress(ns0, disk0, ns, disk, n, off, data, |data|, off + |data|) && ZeroPast(ns0, disk0)
    requires n < |ns0| && off == ns0[n].size
    ensures ZeroPast(ns, disk)
  {
    hide ByteAt;
    forall m, k | 0 <= m < |ns| && ns[m].size <= k < MAXFILE * BSIZE
      ensures ByteAt(ns, disk, m, k) == 0
    {
      assert ByteAt(ns, disk, m, k) == F.NewByte(ns0, disk0, n, off, data, |data|, m, k);
      assert ByteAt(ns0, disk0, m, k) == 0;
    }
  }

  lemma SnugAll(ns0: seq<Inode>, z: seq<Inode>, owner: map<nat, Slot>, n: nat, end: nat)
    requires Snug(ns0, owner, n, end) && n < |z| == |ns0| && z[n].size == end
    requires forall m | 0 <= m < |z| && m != n :: z[m] == ns0[m]
    ensures forall m | 0 <= m < |z| :: Snug(z, owner, m, z[m].size)
  {
  }

  /** An inode that has never been used. */
  ghost predicate Blank(x: Inode) {
    x.typ == 0 && x.size == 0 && forall i | 0 <= i <= NDIRECT :: x.addrs[i] == 0
  }

  lemma EmptyInode(sb: Super, ns: seq<Inode>, disk: Disk, owner: map<nat, Slot>, n: nat, typ: int)
    requires SlotsOwn(sb, ns, disk, owner) && AllHoleFree(ns, disk) && n < |ns| && ns[n].size == 0
    requires (forall m | 0 <= m < |ns| :: Snug(ns, owner, m, ns[m].size))
    ensures var z := ns[n := Inode(typ, 0, ns[n].addrs)];
            && SlotsOwn(sb, z, disk, owner) && AllHoleFree(z, disk)
            && (forall m | 0 <= m < |z| :: Snug(z, owner, m, z[m].size))
            && SameBytes(ns, disk, z, disk) && Sizes(z) == Sizes(ns)
  {
    hide SlotsOwn, IndWord;
    var z := ns[n := Inode(typ, 0, ns[n].addrs)];
    forall s | ValidSlot(|ns|, s)
      ensures SlotVal(z, disk, s) == SlotVal(ns, disk, s)
    {
    }
    F.SameSlotsOwn(sb, ns, z, disk, owner);
    forall m | 0 <= m < |z|
      ensures HoleFree(z, disk, m)
    {
      assert HoleFree(ns, disk, m);
      forall bn | 0 <= bn < MAXFILE
        ensures BlockOf(z, disk, m, bn) == BlockOf(ns, disk, m, bn)
      {
      }
    }
  }

  // ---------- what main does to the image ----------

  /** `ialloc` of a directory or a file, or `iappend`. */
  datatype Cmd = NewInode(dir: bool) | Append(inum: nat, bytes: seq<Byte>)

  /** The inodes that the commands allocate, 1, 2, 3, ... */
  function Made(cmds: seq<Cmd>): nat {
    if cmds == [] then 0 else Made(cmds[..|cmds| - 1]) + if cmds[|cmds| - 1].NewInode? then 1 else 0
  }

  /** The bytes that the commands append to file n, in order. */
  function Concat(cmds: seq<Cmd>, n: nat): seq<Byte> {
    if cmds == [] then [] else
    var before, last := Concat(cmds[..|cmds| - 1], n), cmds[|cmds| - 1];
    if last.Append? && last.inum == n then before + last.bytes else before
  }

  /** The type of inode n after the commands: that of the n-th allocation, or 0 if there is none. */
  function TypeOf(cmds: seq<Cmd>, n: nat): int {
    if cmds == [] then 0 else
    var before, last := cmds[..|cmds| - 1], cmds[|cmds| - 1];
    if last.NewInode? && n == Made(before) + 1 then (if last.dir then T_DIR else T_FILE) else TypeOf(before, n)
  }

  /** Inode numbers that were not handed out have type 0. */
  lemma {:induction false} NotMade(cmds: seq<Cmd>, n: nat)
    ensures TypeOf(cmds, n) == 0 <==> n == 0 || n > Made(cmds)
    decreases |cmds|
  {
    if cmds != [] {
      NotMade(cmds[..|cmds| - 1], n);
    }
  }

  /** Inode n is a directory if and only if the n-th allocation was that of a directory. */
  lemma {:induction false} TypeAt(cmds: seq<Cmd>, i: nat)
    requires i < |cmds| && cmds[i].NewInode?
    ensures TypeOf(cmds, Made(cmds[..i]) + 1) == T_DIR <==> cmds[i].dir
    ensures TypeOf(cmds, Made(cmds[..i]) + 1) == T_FILE <==> !cmds[i].dir
    decreases |cmds|
  {
    var m := |cmds| - 1;
    if i < m {
      TypeAt(cmds[..m], i);
      assert cmds[..m][..i] == cmds[..i];
      NotMade(cmds[..m], Made(cmds[..i]) + 1);
    }
  }

  /** Inodes suffice, and only allocated inodes are appended to. */
  predicate Sound(cmds: seq<Cmd>, ninodes: nat) {
    cmds == [] ||
    var before, last := cmds[..|cmds| - 1], cmds[|cmds| - 1];
    && Sound(before, ninodes)
    && match last
       case NewInode(_) => Made(before) + 1 < ninodes
       case Append(n, _) => 1 <= n <= Made(before) && n < ninodes
  }

  function FinalSizes(cmds: seq<Cmd>, ninodes: nat): (z: seq<nat>)
    ensures |z| == ninodes && forall n | 0 <= n < ninodes :: z[n] == F.Min(|Concat(cmds, n)|, MAXFILE * BSIZE)
  {
    seq(ninodes, n requires 0 <= n < ninodes => F.Min(|Concat(cmds, n)|, MAXFILE * BSIZE))
  }

  ghost predicate AllFit(cmds: seq<Cmd>, ninodes: nat) {
    forall n | 0 <= n < ninodes :: |Concat(cmds, n)| <= MAXFILE * BSIZE
  }

  /** The image holds what the commands have put into it. */
  ghost predicate BuiltBy(ns: seq<Inode>, disk: Disk, freeinode: nat, cmds: seq<Cmd>) {
    && freeinode == 1 + Made(cmds)
    && (forall n | 0 <= n < |ns| :: FileIs(ns, disk, n, Concat(cmds, n)))
    && (forall n | freeinode <= n < |ns| :: Blank(ns[n]))
    && (forall n | 0 <= n < |ns| :: ns[n].typ == TypeOf(cmds, n))
  }

  ghost predicate FileIs(ns: seq<Inode>, disk: Disk, n: nat, c: seq<Byte>)
    requires n < |ns|
  {
    ns[n].size == |c| && |c| <= MAXFILE * BSIZE && Content(ns, disk, n) == c
  }

  lemma {:induction false} ConcatNext(cmds: seq<Cmd>, i: nat, n: nat)
    requires i < |cmds|
    ensures Concat(cmds[..i + 1], n) ==
            if cmds[i].Append? && cmds[i].inum == n then Concat(cmds[..i], n) + cmds[i].bytes else Concat(cmds[..i], n)
    ensures Made(cmds[..i + 1]) == Made(cmds[..i]) + if cmds[i].NewInode? then 1 else 0
    ensures TypeOf(cmds[..i + 1], n) ==
            if cmds[i].NewInode? && n == Made(cmds[..i]) + 1 then (if cmds[i].dir then T_DIR else T_FILE)
            else TypeOf(cmds[..i], n)
  {
    assert cmds[..i + 1][..i] == cmds[..i];
  }

  lemma {:induction false} SoundAt(cmds: seq<Cmd>, ninodes: nat, i: nat)
    requires Sound(cmds, ninodes) && i < |cmds|
    ensures cmds[i].NewInode? ==> Made(cmds[..i]) + 1 < ninodes
    ensures cmds[i].Append? ==> 1 <= cmds[i].inum <= Made(cmds[..i]) && cmds[i].inum < ninodes
    decreases |cmds|
  {
    var m := |cmds| - 1;
    if i < m {
      SoundAt(cmds[..m], ninodes, i);
      assert cmds[..m][..i] == cmds[..i];
    }
  }

  lemma {:induction false} ConcatGrows(cmds: seq<Cmd>, i: nat, n: nat)
    requires i <= |cmds|
    ensures |Concat(cmds[..i], n)| <= |Concat(cmds, n)|
    decreases |cmds|
  {
    var m := |cmds| - 1;
    if i == |cmds| {
      assert cmds[..i] == cmds;
    } else {
      ConcatGrows(cmds[..m], i, n);
      assert cmds[..m][..i] == cmds[..i];
    }
  }

  lemma BuiltNothing(ns: seq<Inode>, disk: Disk)
    requires forall n | 0 <= n < |ns| :: Blank(ns[n])
    ensures BuiltBy(ns, disk, 1, [])
  {
  }

  lemma BuiltNext(ns: seq<Inode>, disk: Disk, freeinode: nat, cmds: seq<Cmd>, i: nat)
    requires i < |cmds| && BuiltBy(ns, disk, freeinode, cmds[..i])
    ensures freeinode == 1 + Made(cmds[..i]) && (freeinode < |ns| ==> Blank(ns[freeinode]))
    ensures forall n | 0 <= n < |ns| :: FileIs(ns, disk, n, Concat(cmds[..i], n))
  {
    hide FileIs, Blank, Concat, Made;
  }

  lemma BuiltNew(ns0: seq<Inode>, ns: seq<Inode>, disk: Disk, freeinode: nat, cmds: seq<Cmd>, i: nat)
    requires i < |cmds| && cmds[i].NewInode? && BuiltBy(ns0, disk, freeinode, cmds[..i])
    requires freeinode < |ns0| == |ns| && forall n | 0 <= n < |ns| && n != freeinode :: ns[n] == ns0[n]
    requires ns[freeinode].size == 0 && ns[freeinode].typ == if cmds[i].dir then T_DIR else T_FILE
    ensures BuiltBy(ns, disk, freeinode + 1, cmds[..i + 1])
  {
    hide Concat, Made, TypeOf, ByteAt;
    var next := cmds[..i + 1];
    forall n | 0 <= n < |ns|
      ensures FileIs(ns, disk, n, Concat(next, n)) && ns[n].typ == TypeOf(next, n)
    {
      ConcatNext(cmds, i, n);
      assert FileIs(ns0, disk, n, Concat(cmds[..i], n));
      SameInode(ns0, ns, disk, n);
    }
    ConcatNext(cmds, i, 0);
  }

  lemma SameInode(ns0: seq<Inode>, ns: seq<Inode>, disk: Disk, n: nat)
    requires n < |ns0| == |ns| && ns0[n].size <= MAXFILE * BSIZE
    requires ns[n] == ns0[n] || ns[n].size == ns0[n].size == 0
    ensures Content(ns, disk, n) == Content(ns0, disk, n)
  {
    hide IndWord, BlockByte;
  }

  lemma RoomFor(ns: seq<Inode>, disk: Disk, freeinode: nat, cmds: seq<Cmd>, i: nat)
    requires i < |cmds| && cmds[i].Append? && cmds[i].inum < |ns| && BuiltBy(ns, disk, freeinode, cmds[..i])
    ensures var n := cmds[i].inum;
            NeedSum(Sizes(ns)) + Need(F.Min(ns[n].size + |cmds[i].bytes|, MAXFILE * BSIZE)) - Need(ns[n].size)
            <= NeedSum(FinalSizes(cmds, |ns|))
  {
    hide Need, NeedSum, Concat, Content, Made, Blank, FinalSizes, Sizes;
    var n := cmds[i].inum;
    var top := F.Min(ns[n].size + |cmds[i].bytes|, MAXFILE * BSIZE);
    var a := Sizes(ns)[n := top];
    forall m | 0 <= m < |ns|
      ensures a[m] <= FinalSizes(cmds, |ns|)[m]
    {
      assert FileIs(ns, disk, m, Concat(cmds[..i], m));
      ConcatGrows(cmds, i, m);
      ConcatGrows(cmds, i + 1, m);
      ConcatNext(cmds, i, m);
    }
    SumMonotone(a, FinalSizes(cmds, |ns|));
    SumAt(Sizes(ns), n, top);
  }

  lemma TooLarge(ns: seq<Inode>, disk: Disk, freeinode: nat, cmds: seq<Cmd>, i: nat)
    requires i < |cmds| && cmds[i].Append? && cmds[i].inum < |ns| && BuiltBy(ns, disk, freeinode, cmds[..i])
    requires ns[cmds[i].inum].size + |cmds[i].bytes| > MAXFILE * BSIZE
    ensures !AllFit(cmds, |ns|)
  {
    hide Concat, Content, Made, Blank;
    var n := cmds[i].inum;
    assert FileIs(ns, disk, n, Concat(cmds[..i], n));
    ConcatNext(cmds, i, n);
    ConcatGrows(cmds, i + 1, n);
  }

  lemma BuiltAppend(ns0: seq<Inode>, disk0: Disk, ns: seq<Inode>, disk: Disk, freeinode: nat, cmds: seq<Cmd>, i: nat)
    requires i < |cmds| && cmds[i].Append? && 1 <= cmds[i].inum < freeinode && BuiltBy(ns0, disk0, freeinode, cmds[..i])
    requires Appended(ns0, disk0, ns, disk, cmds[i].inum, cmds[i].bytes)
    ensures BuiltBy(ns, disk, freeinode, cmds[..i + 1])
  {
    hide Concat, Made, TypeOf, Blank, ByteAt, Content;
    var n, next := cmds[i].inum, cmds[..i + 1];
    forall m | 0 <= m < |ns|
      ensures FileIs(ns, disk, m, Concat(next, m)) && ns[m].typ == TypeOf(next, m)
    {
      ConcatNext(cmds, i, m);
      assert FileIs(ns0, disk0, m, Concat(cmds[..i], m));
      if m != n {
        OtherContent(ns0, disk0, ns, disk, n, m);
      }
    }
    ConcatNext(cmds, i, 0);
  }

  lemma OtherContent(ns0: seq<Inode>, disk0: Disk, ns: seq<Inode>, disk: Disk, n: nat, m: nat)
    requires F.OthersSame(ns0, disk0, ns, disk, n) && m != n && m < |ns0| && ns0[m].size <= MAXFILE * BSIZE
    ensures ns[m] == ns0[m] && Content(ns, disk, m) == Content(ns0, disk0, m)
  {
    hide ByteAt;
  }

  lemma BuiltFits(ns: seq<Inode>, disk: Disk, freeinode: nat, cmds: seq<Cmd>)
    requires BuiltBy(ns, disk, freeinode, cmds)
    ensures AllFit(cmds, |ns|)
  {
    hide Concat, Content, Made, Blank;
    forall n | 0 <= n < |ns|
      ensures |Concat(cmds, n)| <= MAXFILE * BSIZE
    {
      assert FileIs(ns, disk, n, Concat(cmds, n));
    }
  }

  lemma BlankImage(ns: seq<Inode>, disk: Disk)
    requires forall n | 0 <= n < |ns| :: Blank(ns[n])
    ensures ZeroPast(ns, disk) && AllHoleFree(ns, disk) && NeedSum(Sizes(ns)) == 0
  {
    hide NeedSum;
    SumZero(Sizes(ns));
  }

  lemma SameZeros(ns: seq<Inode>, disk: Disk, ns': seq<Inode>, disk': Disk)
    requires ZeroPast(ns, disk) && SameBytes(ns, disk, ns', disk') && Sizes(ns') == Sizes(ns)
    ensures ZeroPast(ns', disk')
  {
    hide ByteAt;
    forall n, k | 0 <= n < |ns'| && ns'[n].size <= k < MAXFILE * BSIZE
      ensures ByteAt(ns', disk', n, k) == 0
    {
      assert Sizes(ns')[n] == Sizes(ns)[n];
      assert ByteAt(ns, disk, n, k) == 0;
    }
  }

  // ---------- free map ----------

  /** Every file has its blocks where it had them. */
  ghost predicate SameBlocks(ns: seq<Inode>, disk: Disk, ns': seq<Inode>, disk': Disk) {
    && |ns'| == |ns|
    && forall n, bn | 0 <= n < |ns| && 0 <= bn < MAXFILE :: BlockOf(ns', disk', n, bn) == BlockOf(ns, disk, n, bn)
  }

  lemma NoBits(z: Block)
    requires z == ZeroBlock()
    ensures forall j | 0 <= j < BPB :: !BlockBit(z, j)
  {
    forall j | 0 <= j < BPB
      ensures !BlockBit(z, j)
    {
      ZeroBits(j % 8);
    }
  }

  lemma BitmapOwns(sb: Super, ns: seq<Inode>, disk: Disk, buf: Block, freeblock: nat, owner: map<nat, Slot>)
    requires Handed(sb, ns, disk, freeblock, owner) && freeblock < BPB
    requires forall j | 0 <= j < BPB :: BlockBit(buf, j) <==> j < freeblock
    ensures sb.bmapstart < |disk|
    ensures var d := disk[sb.bmapstart := buf];
            && OwnInv(sb, ns, d, owner) && SameBytes(ns, disk, ns, d) && SameBlocks(ns, disk, ns, d)
            && (forall b | 0 <= b < sb.size :: InUse(sb, d, b) <==> b < freeblock)
  {
    hide SlotsOwn, SlotVal, ZeroBlock, BlockBit, SameBytes;
    var d := disk[sb.bmapstart := buf];
    MetaWriteSlots(sb, ns, disk, d, owner);
    SlotsOwnFrame(sb, ns, disk, d, owner);
    forall b | 0 <= b < sb.size
      ensures InUse(sb, d, b) <==> b < freeblock
    {
      MapBit(sb, disk, d, buf, freeblock, b);
    }
    forall n, bn | 0 <= n < |ns| && 0 <= bn < MAXFILE
      ensures BlockOf(ns, d, n, bn) == BlockOf(ns, disk, n, bn)
    {
      assert ValidSlot(|ns|, DataSlot(n, bn));
    }
    MetaWriteBytes(sb, ns, disk, d, owner);
  }

  /** The first block of the free map is the new one, the others are zero. */
  lemma MapBit(sb: Super, disk: Disk, d: Disk, buf: Block, freeblock: nat, b: nat)
    requires SuperOk(sb, disk) && b < sb.size && freeblock < BPB && d == disk[sb.bmapstart := buf]
    requires forall c | sb.bmapstart <= c < sb.nmeta :: disk[c] == ZeroBlock()
    requires forall j | 0 <= j < BPB :: BlockBit(buf, j) <==> j < freeblock
    ensures InUse(sb, d, b) <==> b < freeblock
  {
    hide BlockBit, ZeroBlock;
    assert b / BPB <= (sb.size - 1) / BPB;
    if b / BPB == 0 {
      assert b % BPB == b;
    } else {
      NoBits(ZeroBlock());
    }
  }

  lemma MetaWriteBytes(sb: Super, ns: seq<Inode>, disk: Disk, d: Disk, owner: map<nat, Slot>)
    requires SlotsOwn(sb, ns, disk, owner) && |d| == |disk| == sb.size
    requires forall c | sb.nmeta <= c < |disk| :: d[c] == disk[c]
    requires forall s | ValidSlot(|ns|, s) :: SlotVal(ns, d, s) == SlotVal(ns, disk, s)
    ensures SameBytes(ns, disk, ns, d)
  {
    hide SlotsOwn, SlotVal;
    forall m, k | 0 <= m < |ns| && 0 <= k < MAXFILE * BSIZE
      ensures ByteAt(ns, d, m, k) == ByteAt(ns, disk, m, k)
    {
      assert ValidSlot(|ns|, DataSlot(m, k / BSIZE));
      if BlockOf(ns, disk, m, k / BSIZE) != 0 {
        DataOwned(sb, ns, disk, owner, m, k / BSIZE);
      }
    }
  }

  /** The size that `main` finally gives the root directory. */
  function RootSize(size: nat): nat {
    (size / BSIZE + 1) * BSIZE
  }

  /** Rounding the root directory up leaves it without holes exactly when its size was not already a
      multiple of the block size: otherwise the last block it claims was never allocated. */
  lemma RootRounding(ns: seq<Inode>, disk: Disk, root: nat)
    requires HoleFree(ns, disk, root) && Tight(ns, disk, root) && RootSize(ns[root].size) <= MAXFILE * BSIZE
    ensures HoleFree(ns[root := ns[root].(size := RootSize(ns[root].size))], disk, root) <==> ns[root].size % BSIZE != 0
  {
    hide SlotVal;
    var size := ns[root].size;
    var z := ns[root := ns[root].(size := RootSize(size))];
    F.SizeKeepsSlots(ns, disk, root, RootSize(size));
    forall bn | 0 <= bn < MAXFILE
      ensures BlockOf(z, disk, root, bn) == BlockOf(ns, disk, root, bn)
    {
      assert ValidSlot(|ns|, DataSlot(root, bn));
    }
    if size % BSIZE == 0 {
      assert BlockOf(z, disk, root, size / BSIZE) == 0;
    } else {
      forall bn | 0 <= bn < MAXFILE && bn * BSIZE < RootSize(size)
        ensures BlockOf(z, disk, root, bn) != 0
      {
        assert bn * BSIZE < size;
      }
    }
  }

  lemma Rounded(sb: Super, ns: seq<Inode>, disk: Disk, freeblock: nat, owner: map<nat, Slot>)
    requires Handed(sb, ns, disk, freeblock, owner) && AllHoleFree(ns, disk) && ROOTINO < |ns|
    requires Snug(ns, owner, ROOTINO, ns[ROOTINO].size)
    ensures var z := ns[ROOTINO := ns[ROOTINO].(size := RootSize(ns[ROOTINO].size))];
            && Handed(sb, z, disk, freeblock, owner) && SameBytes(ns, disk, z, disk)
            && (forall n | 0 <= n < |ns| && n != ROOTINO :: HoleFree(z, disk, n))
            && (forall bn | 0 <= bn < MAXFILE :: BlockOf(z, disk, ROOTINO, bn) != 0 <==> bn * BSIZE < ns[ROOTINO].size)
            && (RootSize(ns[ROOTINO].size) <= MAXFILE * BSIZE ==>
                  (HoleFree(z, disk, ROOTINO) <==> ns[ROOTINO].size % BSIZE != 0))
  {
    hide SlotsOwn, SlotVal, ZeroBlock, OwnsRange, Snug;
    var z := ns[ROOTINO := ns[ROOTINO].(size := RootSize(ns[ROOTINO].size))];
    F.SizeKeepsSlots(ns, disk, ROOTINO, RootSize(ns[ROOTINO].size));
    F.SameSlotsOwn(sb, ns, z, disk, owner);
    assert HoleFree(ns, disk, ROOTINO);
    SnugIsTight(sb, ns, disk, owner, ROOTINO);
    forall n, bn | 0 <= n < |ns| && 0 <= bn < MAXFILE
      ensures BlockOf(z, disk, n, bn) == BlockOf(ns, disk, n, bn)
    {
      assert ValidSlot(|ns|, DataSlot(n, bn));
    }
    forall n | 0 <= n < |ns| && n != ROOTINO
      ensures HoleFree(z, disk, n)
    {
      assert HoleFree(ns, disk, n);
    }
    if RootSize(ns[ROOTINO].size) <= MAXFILE * BSIZE {
      RootRounding(ns, disk, ROOTINO);
    }
  }

  /** What the kernel finds in file n: what was appended, for the root directory filled up with zero bytes. */
  function FileOf(cmds: seq<Cmd>, n: nat): (c: seq<Byte>)
    ensures |c| == if n == ROOTINO then RootSize(|Concat(cmds, n)|) else |Concat(cmds, n)|
  {
    var c := Concat(cmds, n);
    if n == ROOTINO then c + seq(RootSize(|c|) - |c|, _ => 0) else c
  }

  /** The finished image as the kernel's definitions see it. */
  lemma FinishedFile(ns0: seq<Inode>, disk0: Disk, ns: seq<Inode>, disk: Disk, freeinode: nat, cmds: seq<Cmd>, n: nat)
    requires BuiltBy(ns0, disk0, freeinode, cmds) && ZeroPast(ns0, disk0) && ROOTINO < |ns0| && n < |ns0|
    requires ns == ns0[ROOTINO := ns0[ROOTINO].(size := RootSize(ns0[ROOTINO].size))] && SameBytes(ns0, disk0, ns, disk)
    ensures ns[n].size == |FileOf(cmds, n)|
    ensures ns[n].size <= MAXFILE * BSIZE ==> Content(ns, disk, n) == FileOf(cmds, n)
  {
    hide Concat, ByteAt, Made, Blank;
    assert FileIs(ns0, disk0, n, Concat(cmds, n));
    if ns[n].size <= MAXFILE * BSIZE {
      forall k | 0 <= k < ns[n].size
        ensures ByteAt(ns, disk, n, k) == FileOf(cmds, n)[k]
      {
        assert ByteAt(ns, disk, n, k) == ByteAt(ns0, disk0, n, k);
        assert k < ns0[n].size ==> Content(ns0, disk0, n)[k] == ByteAt(ns0, disk0, n, k);
      }
    }
  }

  /** The image that the commands stand for: file contents, types, holes, the blocks of the root directory and
      the free map. */
  ghost predicate ImageOf(sb: Super, ns: seq<Inode>, disk: Disk, cmds: seq<Cmd>) {
    && (forall n | 0 <= n < |ns| :: FinishedIs(ns, disk, n, FileOf(cmds, n)))
    && (forall n | 0 <= n < |ns| :: ns[n].typ == TypeOf(cmds, n))
    && RootBlocks(ns, disk, |Concat(cmds, ROOTINO)|)
    && (forall n | 0 <= n < |ns| && n != ROOTINO :: HoleFree(ns, disk, n))
    && (forall b | 0 <= b < sb.size :: InUse(sb, disk, b) <==> b < sb.nmeta + NeedSum(FinalSizes(cmds, |ns|)))
  }

  /** File n has the given contents, if it is not too large. */
  ghost predicate FinishedIs(ns: seq<Inode>, disk: Disk, n: nat, c: seq<Byte>)
    requires n < |ns|
  {
    ns[n].size == |c| && (|c| <= MAXFILE * BSIZE ==> Content(ns, disk, n) == c)
  }

  /** The root directory has blocks for the given number of bytes, and so a hole exactly when that is a whole
      number of blocks. */
  ghost predicate RootBlocks(ns: seq<Inode>, disk: Disk, size: nat) {
    && ROOTINO < |ns|
    && (forall bn | 0 <= bn < MAXFILE :: BlockOf(ns, disk, ROOTINO, bn) != 0 <==> bn * BSIZE < size)
    && (RootSize(size) <= MAXFILE * BSIZE ==> (HoleFree(ns, disk, ROOTINO) <==> size % BSIZE != 0))
  }

  lemma BuiltSum(ns: seq<Inode>, disk: Disk, freeinode: nat, cmds: seq<Cmd>)
    requires BuiltBy(ns, disk, freeinode, cmds)
    ensures Sizes(ns) == FinalSizes(cmds, |ns|)
  {
    hide Concat, Content, Made, Blank, Sizes, FinalSizes;
    forall n | 0 <= n < |ns|
      ensures Sizes(ns)[n] == FinalSizes(cmds, |ns|)[n]
    {
      assert FileIs(ns, disk, n, Concat(cmds, n));
    }
  }

  /** Writing the free map moves no block of any file. */
  lemma BlocksStay(ns: seq<Inode>, disk0: Disk, disk: Disk, size: nat)
    requires SameBlocks(ns, disk0, ns, disk)
    ensures RootBlocks(ns, disk0, size) ==> RootBlocks(ns, disk, size)
    ensures forall n | 0 <= n < |ns| && HoleFree(ns, disk0, n) :: HoleFree(ns, disk, n)
  {
    hide BlockOf;
  }

  lemma ImageDone(sb: Super, ns0: seq<Inode>, disk0: Disk, ns: seq<Inode>, disk: Disk, freeinode: nat, cmds: seq<Cmd>)
    requires BuiltBy(ns0, disk0, freeinode, cmds) && ZeroPast(ns0, disk0) && ROOTINO < |ns0|
    requires ns == ns0[ROOTINO := ns0[ROOTINO].(size := RootSize(ns0[ROOTINO].size))]
    requires SameBytes(ns0, disk0, ns, disk0) && SameBytes(ns, disk0, ns, disk) && SameBlocks(ns, disk0, ns, disk)
    requires RootBlocks(ns, disk0, ns0[ROOTINO].size)
    requires forall n | 0 <= n < |ns| && n != ROOTINO :: HoleFree(ns, disk0, n)
    requires forall b | 0 <= b < sb.size :: InUse(sb, disk, b) <==> b < sb.nmeta + NeedSum(Sizes(ns0))
    ensures ImageOf(sb, ns, disk, cmds)
  {
    hide Concat, Content, ByteAt, Made, Blank, HoleFree, InUse, NeedSum, Sizes, FinalSizes, FileOf, RootBlocks,
      SameBlocks, ZeroPast;
    BuiltSum(ns0, disk0, freeinode, cmds);
    BlocksStay(ns, disk0, disk, ns0[ROOTINO].size);
    forall n | 0 <= n < |ns|
      ensures FinishedIs(ns, disk, n, FileOf(cmds, n))
    {
      FinishedFile(ns0, disk0, ns, disk, freeinode, cmds, n);
    }
    assert FileIs(ns0, disk0, ROOTINO, Concat(cmds, ROOTINO));
  }

  /** `main` after the layout: the image built by the commands, the root directory rounded, the free map
      written, and the kernel started on it. */
  method BuildImage(sb: Super, ninodes: nat, cmds: seq<Cmd>) returns (fs: F.Fs?)
    requires sb.size <= UINT_LIMIT && 0 < sb.nmeta <= sb.size && sb.bmapstart + (sb.size - 1) / BPB < sb.nmeta
    requires ROOTINO < ninodes && Sound(cmds, ninodes)
    requires sb.nmeta + NeedSum(FinalSizes(cmds, ninodes)) <= sb.size
    requires sb.nmeta + NeedSum(FinalSizes(cmds, ninodes)) < BPB
    ensures fs != null <==> AllFit(cmds, ninodes)
    ensures fs != null ==>
              && fresh(fs) && fs.Valid() && fs.dsk == fs.mem && fs.sb == sb && |fs.mem| == ninodes
              && ImageOf(sb, fs.mem, fs.disk, cmds)
  {
    hide Handed, AllHoleFree, Snug, Content, Blank, ByteAt, NeedSum, Need, FinalSizes, Sizes, ZeroPast, BuiltBy, Sound,
      AllFit, SameBlocks, SameBytes, OwnInv, HoleFree, ImageOf, InUse, RootSize;
    fs := null;
    var img := new Image(sb, ninodes);
    BuiltNothing(img.ns, img.disk);
    var built := img.Run(cmds);
    if built {
      ghost var ns0, d0, f0 := img.ns, img.disk, img.freeinode;
      BuiltSum(ns0, d0, f0, cmds);
      img.RoundRoot();
      img.WriteBitmap();
      ImageDone(sb, ns0, d0, img.ns, img.disk, f0, cmds);
      fs := new F.Fs.Mount(sb, img.disk, img.ns, img.owner);
    }
  }

  /** Builder and kernel agree: on the layout that `main` computes, whatever inodes it allocates and whatever it
      appends to which of them, the kernel's `readi` finds in every file the concatenation of what was appended to
      that file, at any offset and length. The image needs no more room than the blocks of its files. */
  method BuildAndRead(fssize: nat, ninodes: nat, nlog: nat, cmds: seq<Cmd>, n: nat, off: nat, cnt: nat)
    returns (built: bool, r: F.IoResult, dst: seq<Byte>)
    requires LayoutOf(fssize, ninodes, nlog).nmeta + NeedSum(FinalSizes(cmds, ninodes)) <= fssize <= UINT_LIMIT
    requires LayoutOf(fssize, ninodes, nlog).nmeta + NeedSum(FinalSizes(cmds, ninodes)) < BPB
    requires Sound(cmds, ninodes) && 1 <= n <= Made(cmds) && n < ninodes && off < UINT_LIMIT && cnt < UINT_LIMIT
    ensures built <==> AllFit(cmds, ninodes)
    ensures built && off <= |FileOf(cmds, n)| <= MAXFILE * BSIZE && off + cnt < UINT_LIMIT ==>
              && (r.Done? ==> r.n == F.Min(cnt, |FileOf(cmds, n)| - off) && dst == FileOf(cmds, n)[off..off + r.n])
              && (n != ROOTINO || |Concat(cmds, n)| % BSIZE != 0 ==> r.Done?)
  {
    hide Sound, AllFit, NeedSum, FinalSizes, HoleFree, Content, Concat, FileOf, Made, TypeOf, InUse, F.Extended;
    KnownType(cmds, n);
    r, dst := F.Fail, [];
    var sb := LayoutOf(fssize, ninodes, nlog);
    LayoutFits(fssize, ninodes, nlog);
    ghost var d: Disk := seq(fssize, _ => ZeroBlock());
    assert SuperOk(sb, d);
    var fs := BuildImage(sb, ninodes, cmds);
    built := fs != null;
    if built {
      assert FinishedIs(fs.mem, fs.disk, n, FileOf(cmds, n));
      r, dst := fs.Readi(n, off, cnt);
    }
  }

  lemma KnownType(cmds: seq<Cmd>, n: nat)
    ensures TypeOf(cmds, n) == 0 || TypeOf(cmds, n) == T_DIR || TypeOf(cmds, n) == T_FILE
  {
  }

  // ---------- a root directory of exactly one block ----------

  const DIRENT: nat := 16

  /** A directory entry: the inode number and the name, filled up with zero bytes. */
  function Dirent(inum: nat, name: seq<Byte>): (e: seq<Byte>)
    requires inum < 256 && |name| <= DIRENT - 2
    ensures |e| == DIRENT
  {
    [inum as Byte, 0] + name + seq(DIRENT - 2 - |name|, _ => 0)
  }

  /** The commands of `main` for k empty files. */
  function EmptyFiles(k: nat): seq<Cmd>
    requires k < 200
  {
    if k == 0 then
      [NewInode(true), Append(ROOTINO, Dirent(ROOTINO, [46])), Append(ROOTINO, Dirent(ROOTINO, [46, 46]))]
    else
      EmptyFiles(k - 1) + [NewInode(false), Append(ROOTINO, Dirent(k + 1, [k as Byte]))]
  }

  lemma ConcatSnoc(cmds: seq<Cmd>, c: Cmd, n: nat)
    ensures Concat(cmds + [c], n) == if c.Append? && c.inum == n then Concat(cmds, n) + c.bytes else Concat(cmds, n)
    ensures Made(cmds + [c]) == Made(cmds) + if c.NewInode? then 1 else 0
    ensures n <= Made(cmds) ==> TypeOf(cmds + [c], n) == TypeOf(cmds, n)
  {
    assert (cmds + [c])[..|cmds|] == cmds;
  }

  lemma SoundSnoc(cmds: seq<Cmd>, c: Cmd, ninodes: nat)
    requires Sound(cmds, ninodes)
    requires match c
             case NewInode(_) => Made(cmds) + 1 < ninodes
             case Append(n, _) => 1 <= n <= Made(cmds) && n < ninodes
    ensures Sound(cmds + [c], ninodes)
  {
    assert (cmds + [c])[..|cmds|] == cmds;
  }

  /** Two commands at the end. */
  lemma FileSnoc(cmds: seq<Cmd>, e: seq<Byte>, ninodes: nat, c: Cmd)
    requires Sound(cmds, ninodes) && Made(cmds) + 1 < ninodes && c == Append(ROOTINO, e)
    requires Made(cmds) >= ROOTINO
    ensures Sound(cmds + [NewInode(false), c], ninodes) && Made(cmds + [NewInode(false), c]) == Made(cmds) + 1
    ensures TypeOf(cmds + [NewInode(false), c], ROOTINO) == TypeOf(cmds, ROOTINO)
    ensures forall n: nat ::
              |Concat(cmds + [NewInode(false), c], n)| == |Concat(cmds, n)| + if n == ROOTINO then |e| else 0
  {
    hide Sound, Made, Concat, TypeOf;
    var mid := cmds + [NewInode(false)];
    assert mid + [c] == cmds + [NewInode(false), c];
    ConcatSnoc(cmds, NewInode(false), 0);
    SoundSnoc(cmds, NewInode(false), ninodes);
    ConcatSnoc(mid, c, 0);
    ConcatSnoc(cmds, NewInode(false), ROOTINO);
    ConcatSnoc(mid, c, ROOTINO);
    SoundSnoc(mid, c, ninodes);
    forall n: nat
      ensures |Concat(mid + [c], n)| == |Concat(cmds, n)| + if n == ROOTINO then |e| else 0
    {
      ConcatSnoc(cmds, NewInode(false), n);
      ConcatSnoc(mid, c, n);
    }
  }

  lemma RootOnly()
    ensures Sound(EmptyFiles(0), 200) && Made(EmptyFiles(0)) == 1 && TypeOf(EmptyFiles(0), ROOTINO) == T_DIR
    ensures forall n: nat :: |Concat(EmptyFiles(0), n)| == if n == ROOTINO then 2 * DIRENT else 0
  {
    TypeAt(EmptyFiles(0), 0);
    hide Sound, Made, Concat, TypeOf;
    var a, b := Append(ROOTINO, Dirent(ROOTINO, [46])), Append(ROOTINO, Dirent(ROOTINO, [46, 46]));
    assert [] + [NewInode(true)] == [NewInode(true)];
    assert [NewInode(true)] + [a] == [NewInode(true), a];
    assert [NewInode(true), a] + [b] == EmptyFiles(0);
    NoCommands(200);
    ConcatSnoc([], NewInode(true), 0);
    ConcatSnoc([NewInode(true)], a, 0);
    ConcatSnoc([NewInode(true), a], b, 0);
    SoundSnoc([], NewInode(true), 200);
    SoundSnoc([NewInode(true)], a, 200);
    SoundSnoc([NewInode(true), a], b, 200);
    forall n: nat
      ensures |Concat(EmptyFiles(0), n)| == if n == ROOTINO then 2 * DIRENT else 0
    {
      ConcatSnoc([], NewInode(true), n);
      ConcatSnoc([NewInode(true)], a, n);
      ConcatSnoc([NewInode(true), a], b, n);
    }
  }

  lemma NoCommands(ninodes: nat)
    ensures Sound([], ninodes) && Made([]) == 0 && forall n: nat :: Concat([], n) == []
  {
  }

  lemma {:induction false} EmptyFilesMake(k: nat)
    requires k < 190
    ensures Sound(EmptyFiles(k), 200) && Made(EmptyFiles(k)) == k + 1 && TypeOf(EmptyFiles(k), ROOTINO) == T_DIR
    ensures forall n: nat :: |Concat(EmptyFiles(k), n)| == if n == ROOTINO then (k + 2) * DIRENT else 0
  {
    hide Sound, Made, Concat, TypeOf;
    if k == 0 {
      RootOnly();
    } else {
      EmptyFilesMake(k - 1);
      var e := Dirent(k + 1, [k as Byte]);
      FileSnoc(EmptyFiles(k - 1), e, 200, Append(ROOTINO, e));
    }
  }

  /** Only the root directory has blocks. */
  lemma RootNeeds(sizes: seq<nat>, size: nat)
    requires ROOTINO < |sizes| && forall n | 0 <= n < |sizes| :: sizes[n] == if n == ROOTINO then size else 0
    ensures NeedSum(sizes) == Need(size)
  {
    hide NeedSum;
    var z := sizes[ROOTINO := 0];
    SumZero(z);
    SumAt(sizes, ROOTINO, 0);
  }

  lemma AllShort(cmds: seq<Cmd>, ninodes: nat, size: nat)
    requires forall n: nat :: |Concat(cmds, n)| == if n == ROOTINO then size else 0
    requires size <= MAXFILE * BSIZE && ROOTINO < ninodes
    ensures AllFit(cmds, ninodes) && NeedSum(FinalSizes(cmds, ninodes)) == Need(size)
  {
    hide Concat, NeedSum, Need;
    RootNeeds(FinalSizes(cmds, ninodes), size);
  }

  /** A root directory of one whole block before rounding, on an image with a free block. */
  lemma HoleThere(sb: Super, ns: seq<Inode>, disk: Disk, cmds: seq<Cmd>)
    requires ImageOf(sb, ns, disk, cmds) && |Concat(cmds, ROOTINO)| == BSIZE && Made(cmds) >= 1
    requires sb.nmeta + NeedSum(FinalSizes(cmds, |ns|)) < sb.size && TypeOf(cmds, ROOTINO) == T_DIR
    ensures ROOTINO < |ns| && ns[ROOTINO].size == 2 * BSIZE && ns[ROOTINO].typ == T_DIR
    ensures !HoleFree(ns, disk, ROOTINO) && ns[ROOTINO].addrs[1] == 0 && !F.NoneFree(sb, disk)
  {
    hide Made, TypeOf, Concat, NeedSum, FinalSizes, Content, InUse, HoleFree, IndWord;
    assert FinishedIs(ns, disk, ROOTINO, FileOf(cmds, ROOTINO));
    assert BlockOf(ns, disk, ROOTINO, 1) == ns[ROOTINO].addrs[1];
    assert !InUse(sb, disk, sb.nmeta + NeedSum(FinalSizes(cmds, |ns|)));
  }

  /** A directory of 30 files and the entries for itself and its parent fills one block exactly. On the layout of this
      system the rounded directory claims a second block that it does not have, and when the kernel then writes an
      entry at its old end, the file does not grow, so the new address never reaches the inode on the disk. */
  method HoledRoot() returns (ns: seq<Inode>, disk: Disk, r: F.IoResult, mem: Inode, dsk: Inode)
    ensures ROOTINO < |ns| && ns[ROOTINO].typ == T_DIR && ns[ROOTINO].size == 2 * BSIZE
    ensures !HoleFree(ns, disk, ROOTINO)
    ensures r == F.Done(DIRENT) && mem.addrs[1] != 0 && dsk == ns[ROOTINO] && dsk.addrs[1] == 0
  {
    hide Sound, Made, TypeOf, Concat, NeedSum, FinalSizes, HoleFree, Content, EmptyFiles, InUse, AllFit, FileOf;
    hide F.LogBounded, F.FileBecomes, F.OthersSame, Dirent;
    var cmds := EmptyFiles(30);
    EmptyFilesMake(30);
    var sb := LayoutOf(3000, 200, 30);
    AllShort(cmds, 200, BSIZE);
    var fs := BuildImage(sb, 200, cmds);
    ns, disk := fs.mem, fs.disk;
    HoleThere(sb, ns, disk, cmds);
    r := fs.Writei(ROOTINO, Dirent(32, [122]), BSIZE);
    assert F.InRange(BSIZE, DIRENT, 1) && F.AddrOf(1) == 1;
    mem, dsk := fs.mem[ROOTINO], fs.dsk[ROOTINO];
  }
}

/** The block and inode layers of fs.c: `balloc`, `bfree`, `bmap`, `itrunc`, `readi`, `writei`,
    `iupdate`, and the chunking loop of `filewrite`. */
module Fs {
  import opened Common
  import opened Blocks
  import opened RedoLog
  import opened Inodes
  import G = GroupCommit

  const T_DEV: int := 3

  /** What reaches the caller of `readi` and `writei`. */
  datatype IoResult = Device | Fail | Panic | Done(n: nat)

  function Min(a: nat, b: nat): nat {
    if a < b then a else b
  }

  function IBlock(sb: Super, n: nat): nat {
    n / IPB + sb.inodestart
  }

  /** Eight inodes to a block, 4096 bits of the free map to a block, in order and without gaps. */
  lemma InodeBlocks(sb: Super, m: nat, n: nat)
    ensures IBlock(sb, m) == IBlock(sb, n) <==> m / 8 == n / 8
    ensures IBlock(sb, 0) == sb.inodestart && IBlock(sb, n + 8) == IBlock(sb, n) + 1
    ensures BBlock(sb, m) == BBlock(sb, n) <==> m / 4096 == n / 4096
    ensures BBlock(sb, 0) == sb.bmapstart && BBlock(sb, n + 4096) == BBlock(sb, n) + 1
  {
  }

  // ---------- what bmap may change ----------

  /** Allocated blocks keep their places, no byte of any file changes, inodes other than n are untouched
      and inode n keeps its type and size. */
  ghost predicate Extended(ns: seq<Inode>, disk: Disk, ns': seq<Inode>, disk': Disk, n: nat) {
    && n < |ns| && |disk'| == |disk|
    && SameBytes(ns, disk, ns', disk')
    && (forall m | 0 <= m < |ns| && m != n :: ns'[m] == ns[m])
    && ns'[n].(addrs := ns[n].addrs) == ns[n]
    && KeepsBlocks(ns, disk, ns', disk')
  }

  ghost predicate KeepsBlocks(ns: seq<Inode>, disk: Disk, ns': seq<Inode>, disk': Disk) {
    && |ns'| == |ns|
    && forall s | ValidSlot(|ns|, s) && SlotVal(ns, disk, s) != 0 :: SlotVal(ns', disk', s) == SlotVal(ns, disk, s)
  }

  lemma ExtendedRefl(ns: seq<Inode>, disk: Disk, n: nat)
    requires n < |ns|
    ensures Extended(ns, disk, ns, disk, n)
  {
  }

  lemma ExtendedTrans(ns: seq<Inode>, disk: Disk, ns1: seq<Inode>, disk1: Disk, ns2: seq<Inode>, disk2: Disk, n: nat)
    requires Extended(ns, disk, ns1, disk1, n) && Extended(ns1, disk1, ns2, disk2, n)
    ensures Extended(ns, disk, ns2, disk2, n)
  {
    hide SlotVal, ByteAt;
  }

  /** One filled slot. */
  lemma FillExtends(sb: Super, ns: seq<Inode>, disk: Disk, owner: map<nat, Slot>,
                    ns': seq<Inode>, disk': Disk, owner': map<nat, Slot>, s0: Slot, b: nat)
    requires SlotsOwn(sb, ns, disk, owner) && sb.size == |disk|
    requires Grows(ns, disk, owner, ns', disk', owner', {s0}) && ValidSlot(|ns|, s0)
    requires SlotVal(ns, disk, s0) == 0 && SlotVal(ns', disk', s0) == b < |disk|
    requires !s0.IndPtr? ==> disk'[b] == ZeroBlock()
    ensures Extended(ns, disk, ns', disk', s0.inum)
  {
    hide SlotVal, ByteAt, SlotsOwn, ZeroBlock;
    GrowsUnseen(sb, ns, disk, owner, ns', disk', owner', s0, b);
  }

  lemma BitAddress(sb: Super, b: nat, bi: nat)
    requires b % BPB == 0 && bi < BPB
    ensures BBlock(sb, b + bi) == BBlock(sb, b) && (b + bi) % BPB == bi
  {
  }

  lemma AddrInRange(sb: Super, ns: seq<Inode>, disk: Disk, owner: map<nat, Slot>, n: nat, i: nat)
    requires SlotsOwn(sb, ns, disk, owner) && n < |ns| && i <= NDIRECT && ns[n].addrs[i] != 0
    ensures sb.nmeta <= ns[n].addrs[i] < sb.size
  {
    var s := if i < NDIRECT then Direct(n, i) else IndPtr(n);
    assert ValidSlot(|ns|, s) && SlotVal(ns, disk, s) == ns[n].addrs[i];
  }

  lemma EntryInRange(sb: Super, ns: seq<Inode>, disk: Disk, owner: map<nat, Slot>, n: nat, j: nat)
    requires SlotsOwn(sb, ns, disk, owner) && n < |ns| && j < NINDIRECT && IndWord(disk, ns[n].addrs[NDIRECT], j) != 0
    ensures IndWord(disk, ns[n].addrs[NDIRECT], j) < sb.size
  {
    hide IndWord;
    assert ValidSlot(|ns|, Entry(n, j));
    assert SlotVal(ns, disk, Entry(n, j)) == IndWord(disk, ns[n].addrs[NDIRECT], j);
  }

  lemma FillAddr(sb: Super, ns: seq<Inode>, disk: Disk, owner: map<nat, Slot>, n: nat, i: nat, b: nat)
    requires OwnInv(sb, ns, disk, owner) && n < |ns| && i <= NDIRECT && ns[n].addrs[i] == 0
    requires b < sb.size && !InUse(sb, disk, b) && BBlock(sb, b) < |disk|
    ensures var s0 := if i < NDIRECT then Direct(n, i) else IndPtr(n);
            OwnInv(sb, SetAddr(ns, n, i, b), Alloc(sb, disk, b), owner[b := s0])
    ensures Extended(ns, disk, SetAddr(ns, n, i, b), Alloc(sb, disk, b), n)
    ensures b != 0
  {
    hide SlotsOwn, MapExact, InUse, Grows, Alloc, Extended;
    var s0 := if i < NDIRECT then Direct(n, i) else IndPtr(n);
    FreeIsUnowned(sb, ns, disk, owner, b);
    LinkAddr(sb, ns, disk, owner, n, i, b);
    AllocFacts(sb, disk, b);
    FillExtends(sb, ns, disk, owner, SetAddr(ns, n, i, b), Alloc(sb, disk, b), owner[b := s0], s0, b);
  }

  lemma FillEntry(sb: Super, ns: seq<Inode>, disk: Disk, owner: map<nat, Slot>, n: nat, j: nat, b: nat)
    requires OwnInv(sb, ns, disk, owner) && n < |ns| && j < NINDIRECT && ns[n].addrs[NDIRECT] != 0
    requires IndWord(disk, ns[n].addrs[NDIRECT], j) == 0
    requires b < sb.size && !InUse(sb, disk, b) && BBlock(sb, b) < |disk|
    ensures var a := ns[n].addrs[NDIRECT];
            && a < |disk| && b < UINT_LIMIT && b != 0
            && IndWord(SetEntry(Alloc(sb, disk, b), a, j, b), a, j) == b
            && OwnInv(sb, ns, SetEntry(Alloc(sb, disk, b), a, j, b), owner[b := Entry(n, j)])
            && Extended(ns, disk, ns, SetEntry(Alloc(sb, disk, b), a, j, b), n)
  {
    hide SlotsOwn, MapExact, InUse, Grows, Alloc, Extended, GetWord;
    var a := ns[n].addrs[NDIRECT];
    FreeIsUnowned(sb, ns, disk, owner, b);
    IndBlockOwned(sb, ns, disk, owner, n);
    LinkEntry(sb, ns, disk, owner, n, j, b);
    AllocFacts(sb, disk, b);
    FillExtends(sb, ns, disk, owner, ns, SetEntry(Alloc(sb, disk, b), a, j, b), owner[b := Entry(n, j)],
                Entry(n, j), b);
  }

  // ---------- truncation ----------

  /** The ownership map without the first i direct slots of inode n. */
  ghost function DropDirect(owner: map<nat, Slot>, n: nat, i: nat): map<nat, Slot> {
    map b | b in owner && !(owner[b].Direct? && owner[b].inum == n && owner[b].i < i) :: owner[b]
  }

  /** The ownership map without the slots of inode n. */
  ghost function DropInode(owner: map<nat, Slot>, n: nat): map<nat, Slot> {
    map b | b in owner && owner[b].inum != n :: owner[b]
  }

  /** Inode x with its first i addresses cleared. */
  ghost predicate ClearedUpTo(x: Inode, y: Inode, i: nat) {
    && y.(addrs := x.addrs) == x
    && forall j | 0 <= j <= NDIRECT :: y.addrs[j] == if j < i then 0 else x.addrs[j]
  }

  lemma DropNone(owner: map<nat, Slot>, n: nat)
    ensures DropDirect(owner, n, 0) == owner
  {
  }

  lemma DropOne(sb: Super, ns: seq<Inode>, disk: Disk, owner: map<nat, Slot>, owner0: map<nat, Slot>, n: nat, i: nat)
    requires SlotsOwn(sb, ns, disk, owner) && owner == DropDirect(owner0, n, i)
    requires n < |ns| && i < NDIRECT && ns[n].addrs[i] != 0
    ensures owner - {ns[n].addrs[i]} == DropDirect(owner0, n, i + 1)
  {
    var b := ns[n].addrs[i];
    assert ValidSlot(|ns|, Direct(n, i)) && SlotVal(ns, disk, Direct(n, i)) == b;
    forall c | c in owner && c != b
      ensures owner[c] != Direct(n, i)
    {
    }
  }

  lemma DropNothing(sb: Super, ns: seq<Inode>, disk: Disk, owner: map<nat, Slot>, owner0: map<nat, Slot>, n: nat,
                    i: nat)
    requires SuperOk(sb, disk) && SlotsOwn(sb, ns, disk, owner) && owner == DropDirect(owner0, n, i)
    requires n < |ns| && i < NDIRECT && ns[n].addrs[i] == 0
    ensures owner == DropDirect(owner0, n, i + 1)
  {
    forall c | c in owner
      ensures owner[c] != Direct(n, i)
    {
    }
  }

  lemma NoEntries(sb: Super, ns: seq<Inode>, disk: Disk, owner: map<nat, Slot>, n: nat)
    requires n < |ns| && MapExact(sb, disk, owner)
    ensures MapExactBut(sb, disk, owner, EntryBlocks(ns, disk, n, 0))
  {
    hide InUse;
  }

  lemma NextEntry(sb: Super, ns: seq<Inode>, disk: Disk, owner: map<nat, Slot>, n: nat, j: nat)
    requires SlotsOwn(sb, ns, disk, owner) && n < |ns| && j < NINDIRECT
    ensures var v := SlotVal(ns, disk, Entry(n, j));
            && EntryBlocks(ns, disk, n, j + 1) == EntryBlocks(ns, disk, n, j) + (if v != 0 then {v} else {})
            && (v != 0 ==> v in owner && v !in EntryBlocks(ns, disk, n, j))
  {
    hide SlotVal;
    var v := SlotVal(ns, disk, Entry(n, j));
    if v != 0 {
      assert ValidSlot(|ns|, Entry(n, j)) && owner[v] == Entry(n, j);
      forall k | 0 <= k < j
        ensures SlotVal(ns, disk, Entry(n, k)) != v
      {
        assert ValidSlot(|ns|, Entry(n, k));
      }
    }
  }

  lemma PointerNotEntry(sb: Super, ns: seq<Inode>, disk: Disk, owner: map<nat, Slot>, n: nat)
    requires SlotsOwn(sb, ns, disk, owner) && n < |ns| && ns[n].addrs[NDIRECT] != 0
    ensures ns[n].addrs[NDIRECT] in owner && ns[n].addrs[NDIRECT] !in EntryBlocks(ns, disk, n, NINDIRECT)
  {
    var a := ns[n].addrs[NDIRECT];
    IndBlockOwned(sb, ns, disk, owner, n);
    forall k | 0 <= k < NINDIRECT
      ensures SlotVal(ns, disk, Entry(n, k)) != a
    {
      assert ValidSlot(|ns|, Entry(n, k));
    }
  }

  /** Files other than n: same inode, same bytes, same blocks. */
  ghost predicate OthersSame(ns: seq<Inode>, disk: Disk, ns': seq<Inode>, disk': Disk, n: nat) {
    && |ns'| == |ns|
    && (forall m | 0 <= m < |ns| && m != n :: ns'[m] == ns[m])
    && (forall m, k | 0 <= m < |ns| && m != n && 0 <= k < MAXFILE * BSIZE ::
         ByteAt(ns', disk', m, k) == ByteAt(ns, disk, m, k))
  }

  lemma OthersUnseen(sb: Super, ns: seq<Inode>, disk: Disk, owner: map<nat, Slot>, ns': seq<Inode>, disk': Disk, n: nat)
    requires OwnInv(sb, ns, disk, owner) && |ns'| == |ns| && |disk'| == |disk|
    requires forall m | 0 <= m < |ns| && m != n :: ns'[m] == ns[m]
    requires forall c | sb.nmeta <= c < |disk| :: disk'[c] == disk[c]
    ensures OthersSame(ns, disk, ns', disk', n)
  {
    hide SlotsOwn, MapExact, GetWord;
    forall m, k | 0 <= m < |ns| && m != n && 0 <= k < MAXFILE * BSIZE
      ensures ByteAt(ns', disk', m, k) == ByteAt(ns, disk, m, k)
    {
      var bn := k / BSIZE;
      if ns[m].addrs[NDIRECT] != 0 {
        IndBlockOwned(sb, ns, disk, owner, m);
      }
      assert BlockOf(ns', disk', m, bn) == BlockOf(ns, disk, m, bn);
      if BlockOf(ns, disk, m, bn) != 0 {
        DataOwned(sb, ns, disk, owner, m, bn);
      }
    }
  }

  /** The size field has no bearing on the slots. */
  lemma SizeKeepsSlots(ns: seq<Inode>, disk: Disk, n: nat, size: nat)
    requires n < |ns|
    ensures forall s | ValidSlot(|ns|, s) :: SlotVal(ns[n := ns[n].(size := size)], disk, s) == SlotVal(ns, disk, s)
  {
    hide IndWord;
  }

  lemma SizeKeepsOwn(sb: Super, ns: seq<Inode>, disk: Disk, owner: map<nat, Slot>, n: nat, size: nat)
    requires OwnInv(sb, ns, disk, owner) && n < |ns|
    ensures OwnInv(sb, ns[n := ns[n].(size := size)], disk, owner)
  {
    hide MapExact, SlotVal;
    SizeKeepsSlots(ns, disk, n, size);
    SameSlotsOwn(sb, ns, ns[n := ns[n].(size := size)], disk, owner);
  }

  lemma SameSlotsOwn(sb: Super, ns: seq<Inode>, ns': seq<Inode>, disk: Disk, owner: map<nat, Slot>)
    requires SlotsOwn(sb, ns, disk, owner) && |ns'| == |ns|
    requires forall s | ValidSlot(|ns|, s) :: SlotVal(ns', disk, s) == SlotVal(ns, disk, s)
    ensures SlotsOwn(sb, ns', disk, owner)
  {
    hide SlotVal;
  }

  lemma OwnersValid(sb: Super, ns: seq<Inode>, disk: Disk, owner: map<nat, Slot>)
    requires SlotsOwn(sb, ns, disk, owner)
    ensures forall b | b in owner :: ValidSlot(|ns|, owner[b])
  {
    hide SlotVal;
  }

  /** With the direct slots gone, what inode n still owns is its indirect block and its entries. */
  lemma TruncOwner(sb: Super, ns: seq<Inode>, disk: Disk, owner: map<nat, Slot>, owner0: map<nat, Slot>, n: nat)
    requires SuperOk(sb, disk) && SlotsOwn(sb, ns, disk, owner) && owner == DropDirect(owner0, n, NDIRECT) && n < |ns|
    requires forall b | b in owner0 :: ValidSlot(|ns|, owner0[b])
    ensures ns[n].addrs[NDIRECT] == 0 ==> owner == DropInode(owner0, n)
    ensures ns[n].addrs[NDIRECT] != 0 ==>
              owner - (EntryBlocks(ns, disk, n, NINDIRECT) + {ns[n].addrs[NDIRECT]}) == DropInode(owner0, n)
  {
    hide GetWord;
    var a := ns[n].addrs[NDIRECT];
    forall b | b in owner && owner[b].inum == n
      ensures a != 0 && b in EntryBlocks(ns, disk, n, NINDIRECT) + {a}
    {
      assert SlotVal(ns, disk, owner[b]) == b;
    }
    if a != 0 {
      forall b | b in owner && owner[b].inum != n
        ensures b !in EntryBlocks(ns, disk, n, NINDIRECT) + {a}
      {
        GoneIsIndirect(sb, ns, disk, owner, n, owner[b]);
      }
    }
  }

  // ---------- reading ----------

  /** data is what file n holds from offset off on. */
  ghost predicate BytesFrom(ns: seq<Inode>, disk: Disk, n: nat, off: nat, data: seq<Byte>) {
    && n < |ns| && (data != [] ==> off + |data| <= MAXFILE * BSIZE)
    && forall i | 0 <= i < |data| :: data[i] == ByteAt(ns, disk, n, off + i)
  }

  /** Reading as the slice of the contents. */
  lemma BytesFromIsSlice(ns: seq<Inode>, disk: Disk, n: nat, off: nat, data: seq<Byte>)
    requires BytesFrom(ns, disk, n, off, data) && ns[n].size <= MAXFILE * BSIZE && off + |data| <= ns[n].size
    ensures data == Content(ns, disk, n)[off..off + |data|]
  {
    hide ByteAt;
  }

  lemma NoHoleAt(ns: seq<Inode>, disk: Disk, n: nat, pos: nat)
    requires HoleFree(ns, disk, n) && pos < ns[n].size
    ensures pos / BSIZE < MAXFILE && BlockOf(ns, disk, n, pos / BSIZE) != 0
  {
    hide BlockOf;
    assert pos / BSIZE * BSIZE <= pos;
  }

  lemma InChunk(pos: nat, i: nat)
    requires i < BSIZE - pos % BSIZE
    ensures (pos + i) / BSIZE == pos / BSIZE && (pos + i) % BSIZE == pos % BSIZE + i
  {
  }

  /** One step of the loop of `readi`. */
  lemma ReadChunk(ns0: seq<Inode>, disk0: Disk, ns: seq<Inode>, disk: Disk, n: nat, off: nat, dst: seq<Byte>, b: nat,
                  m: nat)
    requires Extended(ns0, disk0, ns, disk, n) && BytesFrom(ns0, disk0, n, off, dst)
    requires (off + |dst|) / BSIZE < MAXFILE && b == BlockOf(ns, disk, n, (off + |dst|) / BSIZE) && 0 != b < |disk|
    requires m <= BSIZE - (off + |dst|) % BSIZE
    ensures var pos := off + |dst|;
            BytesFrom(ns0, disk0, n, off, dst + disk[b].bytes[pos % BSIZE..pos % BSIZE + m])
  {
    hide BlockOf, KeepsBlocks;
    var pos := off + |dst|;
    var chunk := disk[b].bytes[pos % BSIZE..pos % BSIZE + m];
    forall i | 0 <= i < m
      ensures pos + i < MAXFILE * BSIZE && chunk[i] == ByteAt(ns0, disk0, n, pos + i)
    {
      InChunk(pos, i);
      assert ByteAt(ns, disk, n, pos + i) == ByteAt(ns0, disk0, n, pos + i);
    }
    if m > 0 {
      InChunk(pos, m - 1);
    }
  }

  /** No block is left to allocate. */
  ghost predicate NoneFree(sb: Super, disk: Disk) {
    UsedBelow(sb, disk, sb.size)
  }

  ghost predicate UsedBelow(sb: Super, disk: Disk, n: nat) {
    forall b | 0 <= b < n :: InUse(sb, disk, b)
  }

  lemma NoneBelow(sb: Super, disk: Disk)
    ensures UsedBelow(sb, disk, 0)
  {
  }

  lemma SizeIs(sb: Super, disk: Disk)
    requires SuperOk(sb, disk)
    ensures |disk| == sb.size
  {
  }

  /** Bit bi of the map block that covers b is the bit of block b + bi. */
  lemma BitHere(sb: Super, disk: Disk, b: nat, bi: nat)
    requires SuperOk(sb, disk) && b % BPB == 0 && bi < BPB && b + bi < sb.size
    ensures BBlock(sb, b + bi) == BBlock(sb, b) < |disk|
    ensures InUse(sb, disk, b + bi) <==> BlockBit(disk[BBlock(sb, b)], bi)
    ensures Alloc(sb, disk, b + bi) ==
            disk[BBlock(sb, b) := WithBlockBit(disk[BBlock(sb, b)], bi, true)][b + bi := ZeroBlock()]
    ensures UsedBelow(sb, disk, b + bi) && InUse(sb, disk, b + bi) ==> UsedBelow(sb, disk, b + bi + 1)
  {
    hide BlockBit, WithBlockBit, ZeroBlock;
    BitAddress(sb, b, bi);
    BBlockIsMeta(sb, disk, b);
  }

  // ---------- addresses of the inode itself ----------

  /** The address of the inode through which block bn of the file is reached. */
  function AddrOf(bn: nat): (i: nat)
    ensures i <= NDIRECT
  {
    if bn < NDIRECT then bn else NDIRECT
  }

  /** Address i is in use, and it is new if it was empty; the other addresses are as they were. */
  ghost predicate AddrsFilled(a: Addrs, b: Addrs, i: nat)
    requires i <= NDIRECT
  {
    && b[i] != 0 && (a[i] != 0 ==> b[i] == a[i])
    && forall j | 0 <= j <= NDIRECT && j != i :: b[j] == a[j]
  }

  /** A write of cnt bytes at off reaches its blocks through addresses that are all in use. */
  ghost predicate AddrsInUse(a: Addrs, off: nat, cnt: nat) {
    forall bn | 0 <= bn < MAXFILE && InRange(off, cnt, bn) :: a[AddrOf(bn)] != 0
  }

  /** Exactly the empty addresses that cnt bytes at off reach have been filled. */
  ghost predicate AddrsAfter(a: Addrs, b: Addrs, off: nat, cnt: nat) {
    && AddrsInUse(b, off, cnt)
    && (forall i | 0 <= i <= NDIRECT && a[i] != 0 :: b[i] == a[i])
    && (forall i | 0 <= i <= NDIRECT && a[i] == 0 && b[i] != 0 :: ReachedBy(off, cnt, i))
  }

  ghost predicate ReachedBy(off: nat, cnt: nat, i: nat) {
    exists bn :: 0 <= bn < MAXFILE && InRange(off, cnt, bn) && AddrOf(bn) == i
  }

  lemma AddrsStep(a: Addrs, b: Addrs, c: Addrs, off: nat, tot: nat, m: nat)
    requires AddrsAfter(a, b, off, tot) && 0 < m <= BSIZE - (off + tot) % BSIZE && (off + tot) / BSIZE < MAXFILE
    requires AddrsFilled(b, c, AddrOf((off + tot) / BSIZE))
    ensures AddrsAfter(a, c, off, tot + m)
  {
    hide AddrOf;
    forall bn | 0 <= bn < MAXFILE && InRange(off, tot + m, bn)
      ensures c[AddrOf(bn)] != 0
    {
      NextBlock(off, tot, m, bn);
    }
    forall i | 0 <= i <= NDIRECT && a[i] == 0 && c[i] != 0
      ensures ReachedBy(off, tot + m, i)
    {
      if b[i] != 0 {
        var bn :| 0 <= bn < MAXFILE && InRange(off, tot, bn) && AddrOf(bn) == i;
        assert InRange(off, tot + m, bn);
      } else {
        assert InRange(off, tot + m, (off + tot) / BSIZE) && AddrOf((off + tot) / BSIZE) == i;
      }
    }
  }

  lemma NoAddrs(a: Addrs, off: nat)
    ensures AddrsAfter(a, a, off, 0)
  {
  }

  /** The addresses are what they were exactly if none that was reached was empty. */
  lemma AddrsSame(a: Addrs, b: Addrs, off: nat, cnt: nat)
    requires AddrsAfter(a, b, off, cnt)
    ensures a == b <==> AddrsInUse(a, off, cnt)
  {
    hide AddrOf;
    if AddrsInUse(a, off, cnt) {
      forall i | 0 <= i <= NDIRECT
        ensures a[i] == b[i]
      {
      }
    }
  }

  /** Within a file that has no holes every address is in use. */
  lemma HoleFreeInUse(ns: seq<Inode>, disk: Disk, n: nat, off: nat, cnt: nat)
    requires HoleFree(ns, disk, n) && off + cnt <= ns[n].size
    ensures AddrsInUse(ns[n].addrs, off, cnt)
  {
    forall bn | 0 <= bn < MAXFILE && InRange(off, cnt, bn)
      ensures ns[n].addrs[AddrOf(bn)] != 0
    {
      assert BlockOf(ns, disk, n, bn) != 0;
    }
  }

  // ---------- writing ----------

  /** Block x with the bytes of data from position o on. */
  function Splice(x: Block, o: nat, data: seq<Byte>): (y: Block)
    requires o + |data| <= BSIZE
    ensures forall r | 0 <= r < BSIZE :: y.bytes[r] == if o <= r < o + |data| then data[r - o] else x.bytes[r]
  {
    Block(x.bytes[..o] + data + x.bytes[o + |data|..])
  }

  function PutChunk(disk: Disk, b: nat, o: nat, data: seq<Byte>): (d: Disk)
    requires b < |disk| && o + |data| <= BSIZE
    ensures |d| == |disk|
  {
    disk[b := Splice(disk[b], o, data)]
  }

  lemma ProgressSize(ns0: seq<Inode>, disk0: Disk, ns: seq<Inode>, disk: Disk,
                     n: nat, off: nat, src: seq<Byte>, tot: nat, size: nat)
    requires WriteProgress(ns0, disk0, ns, disk, n, off, src, tot, size)
    ensures n < |ns| && n < |ns0| && ns[n].size == size && ns[n].typ == ns0[n].typ
  {
  }

  /** Byte k of file m once the first tot bytes of src have been written to file n at off. */
  function NewByte(ns: seq<Inode>, disk: Disk, n: nat, off: nat, src: seq<Byte>, tot: nat, m: nat, k: nat): Byte
    requires m < |ns| && k < MAXFILE * BSIZE && tot <= |src|
  {
    if m == n && off <= k < off + tot then src[k - off] else ByteAt(ns, disk, m, k)
  }

  /** Block bn of a file has a byte among the tot bytes from off on. */
  predicate InRange(off: nat, tot: nat, bn: nat) {
    tot > 0 && off / BSIZE <= bn && bn * BSIZE < off + tot
  }

  ghost predicate IsFileBlock(ns: seq<Inode>, disk: Disk, n: nat, off: nat, tot: nat, b: nat)
    requires n < |ns|
  {
    exists bn | 0 <= bn < MAXFILE && InRange(off, tot, bn) :: 0 != b == BlockOf(ns, disk, n, bn)
  }

  /** The first tot bytes of src have been written to file n at off, whose size is now `size`. */
  ghost predicate WriteProgress(ns0: seq<Inode>, disk0: Disk, ns: seq<Inode>, disk: Disk,
                                n: nat, off: nat, src: seq<Byte>, tot: nat, size: nat)
  {
    && n < |ns0| == |ns| && |disk| == |disk0| && tot <= |src|
    && (forall m | 0 <= m < |ns| && m != n :: ns[m] == ns0[m])
    && ns[n].typ == ns0[n].typ && ns[n].size == size
    && (forall m, k | 0 <= m < |ns| && 0 <= k < MAXFILE * BSIZE ::
          ByteAt(ns, disk, m, k) == NewByte(ns0, disk0, n, off, src, tot, m, k))
    && KeepsBlocks(ns0, disk0, ns, disk)
    && (forall bn | 0 <= bn < MAXFILE && InRange(off, tot, bn) :: BlockOf(ns, disk, n, bn) != 0)
  }

  lemma WriteNothing(sb: Super, ns: seq<Inode>, disk: Disk, n: nat, off: nat, src: seq<Byte>, logged: set<nat>)
    requires n < |ns|
    ensures WriteProgress(ns, disk, ns, disk, n, off, src, 0, ns[n].size)
    ensures LogBounded(sb, logged, logged, ns, disk, n, off, 0)
  {
    hide SlotVal, ByteAt;
  }

  /** Everything logged since `before` is the bitmap block, the inode block, the indirect block or one of
      the file blocks between off and off + tot. */
  ghost predicate LogBounded(sb: Super, before: set<nat>, after: set<nat>, ns: seq<Inode>, disk: Disk, n: nat,
                             off: nat, tot: nat)
  {
    n < |ns| &&
    forall b | b in after && b !in before ::
      || b == sb.bmapstart || b == IBlock(sb, n) || 0 != b == ns[n].addrs[NDIRECT]
      || IsFileBlock(ns, disk, n, off, tot, b)
  }

  lemma AllocatedStays(ns0: seq<Inode>, disk0: Disk, ns: seq<Inode>, disk: Disk,
                       n: nat, off: nat, src: seq<Byte>, tot: nat, size: nat, bn: nat)
    requires WriteProgress(ns0, disk0, ns, disk, n, off, src, tot, size) && bn < MAXFILE
    requires BlockOf(ns0, disk0, n, bn) != 0
    ensures BlockOf(ns, disk, n, bn) != 0
  {
    hide SlotVal;
    assert ValidSlot(|ns0|, DataSlot(n, bn));
  }

  lemma ExtendProgress(ns0: seq<Inode>, disk0: Disk, ns: seq<Inode>, disk: Disk, ns1: seq<Inode>, disk1: Disk,
                       n: nat, off: nat, src: seq<Byte>, tot: nat, size: nat)
    requires WriteProgress(ns0, disk0, ns, disk, n, off, src, tot, size) && Extended(ns, disk, ns1, disk1, n)
    ensures WriteProgress(ns0, disk0, ns1, disk1, n, off, src, tot, size)
  {
    hide SlotVal, ByteAt, NewByte;
    forall bn | 0 <= bn < MAXFILE && InRange(off, tot, bn)
      ensures BlockOf(ns1, disk1, n, bn) != 0
    {
      assert ValidSlot(|ns|, DataSlot(n, bn));
    }
  }

  /** Writing one chunk into its allocated block. */
  lemma DataProgress(sb: Super, ns0: seq<Inode>, disk0: Disk, ns: seq<Inode>, disk: Disk, owner: map<nat, Slot>,
                     n: nat, off: nat, src: seq<Byte>, tot: nat, m: nat, size: nat, d: Disk)
    requires n < |ns| && |disk| == sb.size && tot + m <= |src| && 0 < m <= BSIZE - (off + tot) % BSIZE
    requires (off + tot) / BSIZE < MAXFILE && 0 != BlockOf(ns, disk, n, (off + tot) / BSIZE) < |disk|
    requires d == PutChunk(disk, BlockOf(ns, disk, n, (off + tot) / BSIZE), (off + tot) % BSIZE, src[tot..tot + m])
    requires WriteProgress(ns0, disk0, ns, disk, n, off, src, tot, size) && SlotsOwn(sb, ns, disk, owner)
    ensures SlotsOwn(sb, ns, d, owner) && WriteProgress(ns0, disk0, ns, d, n, off, src, tot + m, size)
  {
    hide SlotsOwn, SlotVal, Splice;
    var pos := off + tot;
    var bn := pos / BSIZE;
    var b := BlockOf(ns, disk, n, bn);
    var x := Splice(disk[b], pos % BSIZE, src[tot..tot + m]);
    WriteData(sb, ns, disk, owner, n, bn, x);
    forall f, k | 0 <= f < |ns| && 0 <= k < MAXFILE * BSIZE
      ensures ByteAt(ns, d, f, k) == NewByte(ns0, disk0, n, off, src, tot + m, f, k)
    {
      assert ByteAt(ns, d, f, k) == Written(ns, disk, n, bn, x, f, k);
      assert ByteAt(ns, disk, f, k) == NewByte(ns0, disk0, n, off, src, tot, f, k);
      ChunkByte(ns0, disk0, ns, disk, n, off, src, tot, m, x, f, k);
    }
    forall c | 0 <= c < MAXFILE && InRange(off, tot + m, c)
      ensures BlockOf(ns, d, n, c) != 0
    {
      assert ValidSlot(|ns|, DataSlot(n, c));
      NextBlock(off, tot, m, c);
    }
    assert KeepsBlocks(ns0, disk0, ns, d);
  }

  /** A block touched by the longer range was touched before or is the current one. */
  lemma NextBlock(off: nat, tot: nat, m: nat, c: nat)
    requires InRange(off, tot + m, c) && 0 < m <= BSIZE - (off + tot) % BSIZE
    ensures InRange(off, tot, c) || c == (off + tot) / BSIZE
  {
  }

  lemma ChunkByte(ns0: seq<Inode>, disk0: Disk, ns: seq<Inode>, disk: Disk,
                  n: nat, off: nat, src: seq<Byte>, tot: nat, m: nat, x: Block, f: nat, k: nat)
    requires n < |ns| == |ns0| && f < |ns| && k < MAXFILE * BSIZE && tot + m <= |src|
               && 0 < m <= BSIZE - (off + tot) % BSIZE
    requires (off + tot) / BSIZE < MAXFILE && 0 != BlockOf(ns, disk, n, (off + tot) / BSIZE) < |disk|
    requires ByteAt(ns, disk, f, k) == NewByte(ns0, disk0, n, off, src, tot, f, k)
    requires x == Splice(disk[BlockOf(ns, disk, n, (off + tot) / BSIZE)], (off + tot) % BSIZE, src[tot..tot + m])
    ensures Written(ns, disk, n, (off + tot) / BSIZE, x, f, k) == NewByte(ns0, disk0, n, off, src, tot + m, f, k)
  {
    hide BlockOf, Splice;
    var pos := off + tot;
    if f == n {
      var q, r := k / BSIZE, k % BSIZE;
      assert k == q * BSIZE + r && pos == pos / BSIZE * BSIZE + pos % BSIZE;
      if q == pos / BSIZE {
        assert pos <= k < pos + m <==> pos % BSIZE <= r < pos % BSIZE + m;
      } else {
        assert !(pos <= k < pos + m);
      }
    }
  }

  /** One step of the loop of `writei`: `bmap`, then the chunk. */
  lemma StepProgress(sb: Super, ns0: seq<Inode>, disk0: Disk, ns: seq<Inode>, disk: Disk, ns1: seq<Inode>, disk1: Disk,
                     owner: map<nat, Slot>, n: nat, off: nat, src: seq<Byte>, tot: nat, m: nat, size: nat, d: Disk)
    requires n < |ns| == |ns1| && |disk| == |disk1| && tot + m <= |src| && 0 < m <= BSIZE - (off + tot) % BSIZE
    requires (off + tot) / BSIZE < MAXFILE && 0 != BlockOf(ns1, disk1, n, (off + tot) / BSIZE) < |disk1|
    requires d == PutChunk(disk1, BlockOf(ns1, disk1, n, (off + tot) / BSIZE), (off + tot) % BSIZE, src[tot..tot + m])
    requires WriteProgress(ns0, disk0, ns, disk, n, off, src, tot, size) && Extended(ns, disk, ns1, disk1, n)
    requires OwnInv(sb, ns1, disk1, owner)
    ensures OwnInv(sb, ns1, d, owner) && WriteProgress(ns0, disk0, ns1, d, n, off, src, tot + m, size)
  {
    hide SlotsOwn, MapExact, SlotVal, Splice, WriteProgress, Extended, BlockOf;
    ExtendProgress(ns0, disk0, ns, disk, ns1, disk1, n, off, src, tot, size);
    DataProgress(sb, ns0, disk0, ns1, disk1, owner, n, off, src, tot, m, size, d);
    var pos := off + tot;
    WriteDataOwn(sb, ns1, disk1, owner, n, pos / BSIZE,
                 Splice(disk1[BlockOf(ns1, disk1, n, pos / BSIZE)], pos % BSIZE, src[tot..tot + m]));
  }

  /** The same step, for the set of logged blocks. */
  lemma StepLog(sb: Super, before: set<nat>, l0: set<nat>, l1: set<nat>, ns: seq<Inode>, disk: Disk, ns1: seq<Inode>,
                disk1: Disk,
                owner: map<nat, Slot>, n: nat, off: nat, tot: nat, m: nat, x: Block)
    requires LogBounded(sb, before, l0, ns, disk, n, off, tot) && Extended(ns, disk, ns1, disk1, n)
    requires OwnInv(sb, ns1, disk1, owner)
    requires 0 < m <= BSIZE - (off + tot) % BSIZE && (off + tot) / BSIZE < MAXFILE
    requires var b := BlockOf(ns1, disk1, n, (off + tot) / BSIZE);
             && 0 != b < |disk1|
             && forall c | c in l1 && c !in l0 :: c == sb.bmapstart || c == b || 0 != c == ns1[n].addrs[NDIRECT]
    ensures var b := BlockOf(ns1, disk1, n, (off + tot) / BSIZE);
            LogBounded(sb, before, l1 + {b}, ns1, disk1[b := x], n, off, tot + m)
  {
    hide SlotsOwn, MapExact, SlotVal, SameBytes;
    var bn := (off + tot) / BSIZE;
    var b := BlockOf(ns1, disk1, n, bn);
    var d := disk1[b := x];
    WriteData(sb, ns1, disk1, owner, n, bn, x);
    forall c | c in l1 + {b} && c !in before
      ensures || c == sb.bmapstart || c == IBlock(sb, n) || 0 != c == ns1[n].addrs[NDIRECT]
              || IsFileBlock(ns1, d, n, off, tot + m, c)
    {
      if c == b {
        assert ValidSlot(|ns1|, DataSlot(n, bn)) && InRange(off, tot + m, bn);
        assert BlockOf(ns1, d, n, bn) == b;
      } else if c in l0 && IsFileBlock(ns, disk, n, off, tot, c) {
        var q :| 0 <= q < MAXFILE && InRange(off, tot, q) && 0 != c == BlockOf(ns, disk, n, q);
        assert ValidSlot(|ns|, DataSlot(n, q)) && InRange(off, tot + m, q);
        assert BlockOf(ns1, d, n, q) == c;
      } else if c in l0 && 0 != c == ns[n].addrs[NDIRECT] {
        PointerStays(ns, disk, ns1, disk1, n);
      }
    }
  }

  lemma PointerStays(ns: seq<Inode>, disk: Disk, ns1: seq<Inode>, disk1: Disk, n: nat)
    requires KeepsBlocks(ns, disk, ns1, disk1) && n < |ns| && ns[n].addrs[NDIRECT] != 0
    ensures ns1[n].addrs[NDIRECT] == ns[n].addrs[NDIRECT]
  {
    assert ValidSlot(|ns|, IndPtr(n));
    assert SlotVal(ns, disk, IndPtr(n)) == ns[n].addrs[NDIRECT];
    assert SlotVal(ns1, disk1, IndPtr(n)) == ns1[n].addrs[NDIRECT];
  }

  /** The last assignment of `writei` when the file has grown. */
  lemma ResizeProgress(sb: Super, ns0: seq<Inode>, disk0: Disk, ns: seq<Inode>, disk: Disk,
                       n: nat, off: nat, src: seq<Byte>, size: nat, newSize: nat, before: set<nat>, after: set<nat>)
    requires WriteProgress(ns0, disk0, ns, disk, n, off, src, |src|, size)
    ensures var z := ns[n := ns[n].(size := newSize)];
            && WriteProgress(ns0, disk0, z, disk, n, off, src, |src|, newSize)
            && (LogBounded(sb, before, after, ns, disk, n, off, |src|) ==>
                  LogBounded(sb, before, after + {IBlock(sb, n)}, z, disk, n, off, |src|))
  {
    hide SlotVal, NewByte;
    var z := ns[n := ns[n].(size := newSize)];
    SizeKeepsSlots(ns, disk, n, newSize);
    forall m, bn | 0 <= m < |ns| && 0 <= bn < MAXFILE
      ensures BlockOf(z, disk, m, bn) == BlockOf(ns, disk, m, bn)
    {
      assert ValidSlot(|ns|, DataSlot(m, bn));
    }
    forall m, k | 0 <= m < |ns| && 0 <= k < MAXFILE * BSIZE
      ensures ByteAt(z, disk, m, k) == NewByte(ns0, disk0, n, off, src, |src|, m, k)
    {
      assert ByteAt(z, disk, m, k) == ByteAt(ns, disk, m, k);
    }
    if LogBounded(sb, before, after, ns, disk, n, off, |src|) {
      forall b | b in after && b !in before && IsFileBlock(ns, disk, n, off, |src|, b)
        ensures IsFileBlock(z, disk, n, off, |src|, b)
      {
        var q :| 0 <= q < MAXFILE && InRange(off, |src|, q) && 0 != b == BlockOf(ns, disk, n, q);
        assert BlockOf(z, disk, n, q) == b;
      }
    }
  }

  /** Contents c with the bytes of src from off on. */
  function Overwrite(c: seq<Byte>, off: nat, src: seq<Byte>): (d: seq<Byte>)
    requires off <= |c|
    ensures |d| == if off + |src| > |c| then off + |src| else |c|
  {
    c[..off] + src + if off + |src| < |c| then c[off + |src|..] else []
  }

  /** File n has become the old contents overwritten by src at off. */
  ghost predicate FileBecomes(ns0: seq<Inode>, disk0: Disk, ns: seq<Inode>, disk: Disk, n: nat, off: nat,
                              src: seq<Byte>) {
    && n < |ns0| == |ns|
    && off <= ns0[n].size <= MAXFILE * BSIZE && ns[n].size <= MAXFILE * BSIZE && ns[n].typ == ns0[n].typ
    && Content(ns, disk, n) == Overwrite(Content(ns0, disk0, n), off, src)
  }

  lemma WriteMeans(ns0: seq<Inode>, disk0: Disk, ns: seq<Inode>, disk: Disk, n: nat, off: nat, src: seq<Byte>,
                   size0: nat, size: nat)
    requires WriteProgress(ns0, disk0, ns, disk, n, off, src, |src|, size) && size0 == ns0[n].size
    requires off <= size0 && off + |src| <= MAXFILE * BSIZE
    requires size == if off + |src| > size0 then off + |src| else size0
    ensures size0 <= MAXFILE * BSIZE ==> FileBecomes(ns0, disk0, ns, disk, n, off, src)
    ensures HoleFree(ns0, disk0, n) ==> HoleFree(ns, disk, n)
    ensures OthersSame(ns0, disk0, ns, disk, n)
    ensures forall m | 0 <= m < |ns| && m != n && HoleFree(ns0, disk0, m) :: HoleFree(ns, disk, m)
  {
    hide WriteProgress, OthersSame;
    if size0 <= MAXFILE * BSIZE {
      WriteContent(ns0, disk0, ns, disk, n, off, src, size0, size);
    }
    if HoleFree(ns0, disk0, n) {
      WriteHoleFree(ns0, disk0, ns, disk, n, off, src, size0, size);
    }
    WriteOthers(ns0, disk0, ns, disk, n, off, src, size);
  }

  lemma WriteContent(ns0: seq<Inode>, disk0: Disk, ns: seq<Inode>, disk: Disk, n: nat, off: nat, src: seq<Byte>,
                     size0: nat, size: nat)
    requires WriteProgress(ns0, disk0, ns, disk, n, off, src, |src|, size) && size0 == ns0[n].size <= MAXFILE * BSIZE
    requires off <= size0 && off + |src| <= MAXFILE * BSIZE
    requires size == if off + |src| > size0 then off + |src| else size0
    ensures FileBecomes(ns0, disk0, ns, disk, n, off, src)
  {
    hide ByteAt, KeepsBlocks;
    var c, d := Overwrite(Content(ns0, disk0, n), off, src), Content(ns, disk, n);
    forall k | 0 <= k < size
      ensures d[k] == c[k]
    {
      assert d[k] == ByteAt(ns, disk, n, k) == NewByte(ns0, disk0, n, off, src, |src|, n, k);
    }
  }

  lemma WriteHoleFree(ns0: seq<Inode>, disk0: Disk, ns: seq<Inode>, disk: Disk, n: nat, off: nat, src: seq<Byte>,
                      size0: nat, size: nat)
    requires WriteProgress(ns0, disk0, ns, disk, n, off, src, |src|, size) && size0 == ns0[n].size
               && HoleFree(ns0, disk0, n)
    requires off <= size0 && off + |src| <= MAXFILE * BSIZE
    requires size == if off + |src| > size0 then off + |src| else size0
    ensures HoleFree(ns, disk, n)
  {
    hide ByteAt, NewByte, SlotVal;
    forall bn | 0 <= bn < MAXFILE && bn * BSIZE < size
      ensures BlockOf(ns, disk, n, bn) != 0
    {
      assert ValidSlot(|ns0|, DataSlot(n, bn));
      if bn * BSIZE >= size0 {
        assert InRange(off, |src|, bn);
      } else {
        assert BlockOf(ns0, disk0, n, bn) != 0;
      }
    }
  }

  lemma WriteOthers(ns0: seq<Inode>, disk0: Disk, ns: seq<Inode>, disk: Disk, n: nat, off: nat, src: seq<Byte>,
                    size: nat)
    requires WriteProgress(ns0, disk0, ns, disk, n, off, src, |src|, size)
    ensures OthersSame(ns0, disk0, ns, disk, n)
    ensures forall m | 0 <= m < |ns| && m != n && HoleFree(ns0, disk0, m) :: HoleFree(ns, disk, m)
  {
    hide ByteAt, SlotVal;
    forall m, k | 0 <= m < |ns| && m != n && 0 <= k < MAXFILE * BSIZE
      ensures ByteAt(ns, disk, m, k) == ByteAt(ns0, disk0, m, k)
    {
      assert ByteAt(ns, disk, m, k) == NewByte(ns0, disk0, n, off, src, |src|, m, k);
    }
    forall m | 0 <= m < |ns| && m != n && HoleFree(ns0, disk0, m)
      ensures HoleFree(ns, disk, m)
    {
      forall bn | 0 <= bn < MAXFILE && bn * BSIZE < ns[m].size
        ensures BlockOf(ns, disk, m, bn) != 0
      {
        assert ValidSlot(|ns0|, DataSlot(m, bn)) && BlockOf(ns0, disk0, m, bn) != 0;
      }
    }
  }

  // ---------- filewrite ----------

  /** Bitmap, inode, indirect block and four data blocks. */
  const TXN_BLOCKS: nat := 7

  lemma {:induction false} SubsetCard<T>(a: set<T>, b: set<T>)
    requires a <= b
    ensures |a| <= |b|
  {
    if a != {} {
      var x :| x in a;
      SubsetCard(a - {x}, b - {x});
    }
  }

  /** The logged blocks of one chunk of `filewrite`. */
  lemma CountLogged(sb: Super, logged: set<nat>, ns: seq<Inode>, disk: Disk, n: nat, off: nat, cnt: nat)
    requires LogBounded(sb, {}, logged, ns, disk, n, off, cnt) && cnt <= 3 * BSIZE
    ensures |logged| <= TXN_BLOCKS
  {
    hide BlockOf;
    var q := off / BSIZE;
    var f0, f1, f2, f3 := BlockOrZero(ns, disk, n, q), BlockOrZero(ns, disk, n, q + 1),
                          BlockOrZero(ns, disk, n, q + 2), BlockOrZero(ns, disk, n, q + 3);
    var all := {sb.bmapstart, IBlock(sb, n), ns[n].addrs[NDIRECT], f0, f1, f2, f3};
    forall b | b in logged
      ensures b in all
    {
      if IsFileBlock(ns, disk, n, off, cnt, b) {
        var bn :| 0 <= bn < MAXFILE && InRange(off, cnt, bn) && 0 != b == BlockOf(ns, disk, n, bn);
        assert bn == q || bn == q + 1 || bn == q + 2 || bn == q + 3;
        assert b == BlockOrZero(ns, disk, n, bn);
      }
    }
    SubsetCard(logged, all);
    SevenAtMost(sb.bmapstart, IBlock(sb, n), ns[n].addrs[NDIRECT], f0, f1, f2, f3);
  }

  function BlockOrZero(ns: seq<Inode>, disk: Disk, n: nat, bn: nat): nat
    requires n < |ns|
  {
    if bn < MAXFILE then BlockOf(ns, disk, n, bn) else 0
  }

  lemma SevenAtMost(a: nat, b: nat, c: nat, d: nat, e: nat, f: nat, g: nat)
    ensures |{a, b, c, d, e, f, g}| <= 7
  {
    var s1 := {a};
    var s2 := s1 + {b};
    var s3 := s2 + {c};
    var s4 := s3 + {d};
    var s5 := s4 + {e};
    var s6 := s5 + {f};
    assert {a, b, c, d, e, f, g} == s6 + {g};
    assert |s2| <= 2 && |s3| <= 3 && |s4| <= 4 && |s5| <= 5 && |s6| <= 6;
  }

  lemma OthersRefl(ns: seq<Inode>, disk: Disk, n: nat)
    ensures OthersSame(ns, disk, ns, disk, n)
  {
  }

  lemma OthersTrans(ns: seq<Inode>, disk: Disk, ns1: seq<Inode>, disk1: Disk, ns2: seq<Inode>, disk2: Disk, n: nat)
    requires OthersSame(ns, disk, ns1, disk1, n) && OthersSame(ns1, disk1, ns2, disk2, n)
    ensures OthersSame(ns, disk, ns2, disk2, n)
  {
    hide ByteAt;
  }

  lemma NothingWritten(ns: seq<Inode>, disk: Disk, n: nat, off: nat)
    requires n < |ns| && off <= ns[n].size <= MAXFILE * BSIZE
    ensures FileBecomes(ns, disk, ns, disk, n, off, [])
  {
    hide ByteAt;
  }

  /** Two consecutive chunks are one longer write. */
  lemma WrittenTwice(ns: seq<Inode>, disk: Disk, ns1: seq<Inode>, disk1: Disk, ns2: seq<Inode>, disk2: Disk,
                     n: nat, off: nat, data: seq<Byte>, i: nat, m: nat)
    requires i + m <= |data|
    requires FileBecomes(ns, disk, ns1, disk1, n, off, data[..i])
    requires FileBecomes(ns1, disk1, ns2, disk2, n, off + i, data[i..i + m])
    ensures FileBecomes(ns, disk, ns2, disk2, n, off, data[..i + m])
  {
    hide Content;
    OverwriteTwice(Content(ns, disk, n), off, data, i, m);
  }

  lemma OverwriteTwice(c: seq<Byte>, off: nat, data: seq<Byte>, i: nat, m: nat)
    requires off <= |c| && i + m <= |data|
    ensures Overwrite(Overwrite(c, off, data[..i]), off + i, data[i..i + m]) == Overwrite(c, off, data[..i + m])
  {
    var a := Overwrite(c, off, data[..i]);
    assert a[..off + i] == c[..off] + data[..i];
    assert data[..i + m] == data[..i] + data[i..i + m];
  }

  /** Write-ahead discipline: whatever differs from the disk d0 has been logged. */
  ghost predicate Ahead(d0: Disk, d: Disk, l0: set<nat>, l: set<nat>) {
    && |d| == |d0| && l0 <= l
    && forall b | 0 <= b < |d| && d[b] != d0[b] :: b in l
  }

  lemma AheadRefl(d: Disk, l: set<nat>)
    ensures Ahead(d, d, l, l)
  {
  }

  lemma AheadTrans(d0: Disk, l0: set<nat>, d1: Disk, l1: set<nat>, d2: Disk, l2: set<nat>)
    requires Ahead(d0, d1, l0, l1) && Ahead(d1, d2, l1, l2)
    ensures Ahead(d0, d2, l0, l2)
  {
    forall b | 0 <= b < |d2| && d2[b] != d0[b]
      ensures b in l2
    {
      if d2[b] == d1[b] {
        assert b in l1;
      }
    }
  }

  lemma AheadOne(d: Disk, b: nat, x: Block, l: set<nat>)
    requires b < |d|
    ensures Ahead(d, d[b := x], l, l + {b})
  {
  }

  lemma AheadMore(d0: Disk, d: Disk, l0: set<nat>, l: set<nat>, b: nat)
    requires Ahead(d0, d, l0, l)
    ensures Ahead(d0, d, l0, l + {b})
  {
  }

  lemma AllocAhead(sb: Super, d: Disk, b: nat, l: set<nat>)
    requires b < |d| && BBlock(sb, b) < |d|
    ensures Ahead(d, Alloc(sb, d, b), l, l + {BBlock(sb, b), b})
  {
    hide BBlock, WithBlockBit;
  }

  lemma EntryAhead(d0: Disk, l0: set<nat>, d: Disk, l: set<nat>, a: nat, j: nat, v: nat)
    requires Ahead(d0, d, l0, l) && a < |d| && j < NINDIRECT && v < UINT_LIMIT
    ensures Ahead(d0, SetEntry(d, a, j, v), l0, l + {a})
  {
  }

  lemma FreeAhead(sb: Super, d0: Disk, l0: set<nat>, d: Disk, l: set<nat>, b: nat)
    requires Ahead(d0, d, l0, l) && BBlock(sb, b) < |d|
    ensures Ahead(d0, WithBitAt(sb, d, b, false), l0, l + {BBlock(sb, b)})
  {
    hide BBlock, WithBlockBit;
  }

  /** The same for the inodes on the disk. */
  ghost predicate InodesAhead(sb: Super, dsk0: seq<Inode>, dsk: seq<Inode>, l: set<nat>) {
    |dsk| == |dsk0| && forall m | 0 <= m < |dsk| && dsk[m] != dsk0[m] :: IBlock(sb, m) in l
  }

  /** Whatever has changed is in one of the transactions since `before`. */
  ghost predicate InTxns(sb: Super, d0: Disk, d: Disk, dsk0: seq<Inode>, dsk: seq<Inode>, before: seq<set<nat>>,
                         txns: seq<set<nat>>) {
    && |d| == |d0| && |dsk| == |dsk0| && before <= txns
    && (forall b | 0 <= b < |d| && d[b] != d0[b] :: SomeTxn(before, txns, b))
    && (forall m | 0 <= m < |dsk| && dsk[m] != dsk0[m] :: SomeTxn(before, txns, IBlock(sb, m)))
  }

  ghost predicate SomeTxn(before: seq<set<nat>>, txns: seq<set<nat>>, b: nat) {
    exists i | |before| <= i < |txns| :: b in txns[i]
  }

  lemma InTxnsRefl(sb: Super, d: Disk, dsk: seq<Inode>, txns: seq<set<nat>>)
    ensures InTxns(sb, d, d, dsk, dsk, txns, txns)
  {
  }

  lemma InTxnsStep(sb: Super, d0: Disk, d1: Disk, d2: Disk, dsk0: seq<Inode>, dsk1: seq<Inode>, dsk2: seq<Inode>,
                   before: seq<set<nat>>, txns: seq<set<nat>>, txns': seq<set<nat>>)
    requires InTxns(sb, d0, d1, dsk0, dsk1, before, txns)
    requires |txns'| == |txns| + 1 && txns'[..|txns|] == txns
    requires Ahead(d1, d2, {}, txns'[|txns|]) && InodesAhead(sb, dsk1, dsk2, txns'[|txns|])
    ensures InTxns(sb, d0, d2, dsk0, dsk2, before, txns')
  {
    hide IBlock;
    forall b | SomeTxn(before, txns, b) || b in txns'[|txns|]
      ensures SomeTxn(before, txns', b)
    {
      if SomeTxn(before, txns, b) {
        var i :| |before| <= i < |txns| && b in txns[i];
        assert txns'[..|txns|][i] == txns'[i];
      }
    }
    forall i | 0 <= i < |before|
      ensures before[i] == txns'[i]
    {
      assert txns'[..|txns|][i] == txns'[i];
    }
    forall b | 0 <= b < |d2| && d2[b] != d0[b]
      ensures SomeTxn(before, txns', b)
    {
      assert d2[b] != d1[b] || d1[b] != d0[b];
    }
    forall m | 0 <= m < |dsk2| && dsk2[m] != dsk0[m]
      ensures SomeTxn(before, txns', IBlock(sb, m))
    {
      assert dsk2[m] != dsk1[m] || dsk1[m] != dsk0[m];
    }
  }

  /** Some block of the range is not there. */
  ghost predicate Lacks(ns: seq<Inode>, disk: Disk, n: nat, off: nat, cnt: nat) {
    n < |ns| && exists bn | 0 <= bn < MAXFILE && InRange(off, cnt, bn) :: BlockOf(ns, disk, n, bn) == 0
  }

  /** The block that a write could not get was not there before it. */
  lemma StillLacks(ns0: seq<Inode>, disk0: Disk, ns: seq<Inode>, disk: Disk, n: nat, off: nat, src: seq<Byte>, tot: nat,
                   size: nat)
    requires WriteProgress(ns0, disk0, ns, disk, n, off, src, tot, size) && tot < |src|
    requires off + |src| <= MAXFILE * BSIZE && BlockOf(ns, disk, n, (off + tot) / BSIZE) == 0
    ensures Lacks(ns0, disk0, n, off, |src|)
  {
    var bn := (off + tot) / BSIZE;
    assert InRange(off, |src|, bn);
    BlockKept(ns0, disk0, ns, disk, n, bn);
  }

  lemma ReadLacks(ns0: seq<Inode>, disk0: Disk, ns: seq<Inode>, disk: Disk, n: nat, off: nat, cnt: nat, pos: nat)
    requires Extended(ns0, disk0, ns, disk, n) && off <= pos < off + cnt && pos < MAXFILE * BSIZE
    requires BlockOf(ns, disk, n, pos / BSIZE) == 0
    ensures Lacks(ns0, disk0, n, off, cnt)
  {
    hide SameBytes;
    assert InRange(off, cnt, pos / BSIZE);
    BlockKept(ns0, disk0, ns, disk, n, pos / BSIZE);
  }

  lemma BlockKept(ns0: seq<Inode>, disk0: Disk, ns: seq<Inode>, disk: Disk, n: nat, bn: nat)
    requires KeepsBlocks(ns0, disk0, ns, disk) && n < |ns0| && bn < MAXFILE && BlockOf(ns, disk, n, bn) == 0
    ensures BlockOf(ns0, disk0, n, bn) == 0
  {
  }

  /** A write of cnt bytes at off to a file of the given size is refused. */
  predicate OutOfRange(size: nat, off: nat, cnt: nat) {
    off > size || off + cnt >= UINT_LIMIT || off + cnt > MAXFILE * BSIZE
  }

  class Fs {
    const sb: Super
    var disk: Disk
    var mem: seq<Inode>
    var dsk: seq<Inode>
    ghost var owner: map<nat, Slot>
    ghost var logged: set<nat>
    ghost var txns: seq<set<nat>>

    ghost predicate Valid()
      reads this
    {
      |mem| == |dsk| && OwnInv(sb, mem, disk, owner)
    }

    /** The kernel starting on an image whose ownership is sound, with no inode changed in memory. */
    constructor Mount(super: Super, d: Disk, inodes: seq<Inode>, ghost o: map<nat, Slot>)
      requires OwnInv(super, inodes, d, o)
      ensures Valid() && sb == super && disk == d && mem == inodes && dsk == inodes && owner == o && logged == {}
                && txns == []
    {
      sb, disk, mem, dsk := super, d, inodes, inodes;
      owner, logged, txns := o, {}, [];
    }

    /** `balloc`: the first block whose bit is clear; None is the panic when there is none. */
    method Balloc() returns (r: Option<nat>)
      requires SuperOk(sb, disk)
      modifies this`disk, this`logged
      ensures |disk| == old(|disk|)
      ensures r.Some? ==>
                && r.value < sb.size && !InUse(sb, old(disk), r.value) && BBlock(sb, r.value) < |disk|
                && disk == Alloc(sb, old(disk), r.value)
                && logged == old(logged) + {BBlock(sb, r.value), r.value}
                && UsedBelow(sb, old(disk), r.value)
      ensures r.None? ==> disk == old(disk) && logged == old(logged) && NoneFree(sb, disk)
    {
      hide BlockBit, InUse, BBlock, UsedBelow, Alloc, SuperOk, WithBlockBit;
      SizeIs(sb, disk);
      NoneBelow(sb, disk);
      var b := 0;
      while b < sb.size
        invariant b % BPB == 0 && disk == old(disk) && logged == old(logged)
        invariant UsedBelow(sb, disk, if b < sb.size then b else sb.size)
      {
        BitHere(sb, disk, b, 0);
        var bb := BBlock(sb, b);
        var bp := disk[bb];
        var bi := 0;
        while bi < BPB && b + bi < sb.size
          invariant 0 <= bi <= BPB && b + bi <= sb.size && disk == old(disk) && logged == old(logged)
          invariant UsedBelow(sb, disk, b + bi)
        {
          BitHere(sb, disk, b, bi);
          if !BlockBit(bp, bi) {
            disk := disk[bb := WithBlockBit(bp, bi, true)];
            logged := logged + {bb};
            disk := disk[b + bi := ZeroBlock()];
            logged := logged + {b + bi};
            return Some(b + bi);
          }
          bi := bi + 1;
        }
        b := b + BPB;
      }
      return None;
    }

    /** `bfree`: false is the panic "freeing free block". */
    method Bfree(b: nat) returns (ok: bool)
      requires SuperOk(sb, disk) && b < sb.size
      modifies this`disk, this`logged
      ensures ok == InUse(sb, old(disk), b)
      ensures BBlock(sb, b) < |old(disk)|
      ensures disk == if ok then WithBitAt(sb, old(disk), b, false) else old(disk)
      ensures logged == old(logged) + if ok then {BBlock(sb, b)} else {}
    {
      BBlockIsMeta(sb, disk, b);
      var bb, bi := BBlock(sb, b), b % BPB;
      var bp := disk[bb];
      if !BlockBit(bp, bi) {
        return false;
      }
      disk := disk[bb := WithBlockBit(bp, bi, false)];
      logged := logged + {bb};
      return true;
    }

    /** The two places where `bmap` fills an address of the inode itself (direct or indirect pointer). */
    method EnsureAddr(n: nat, i: nat) returns (r: Option<nat>)
      requires Valid() && n < |mem| && i <= NDIRECT
      modifies this`disk, this`mem, this`owner, this`logged
      ensures Valid() && Extended(old(mem), old(disk), mem, disk, n)
      ensures r.Some? ==> r.value == mem[n].addrs[i] && r.value != 0
      ensures r.Some? ==> forall j | 0 <= j <= NDIRECT && j != i :: mem[n].addrs[j] == old(mem)[n].addrs[j]
      ensures old(mem[n].addrs[i]) != 0 ==>
                r.Some? && mem == old(mem) && disk == old(disk) && owner == old(owner) && logged == old(logged)
      ensures r.None? ==> mem == old(mem) && disk == old(disk) && logged == old(logged) && NoneFree(sb, disk)
      ensures r.Some? ==> r.value < sb.size && logged <= old(logged) + {BBlock(sb, r.value), r.value}
      ensures Ahead(old(disk), disk, old(logged), logged)
    {
      hide SlotVal, ByteAt, SlotsOwn, MapExact, InUse, Grows, Alloc, Ahead;
      ExtendedRefl(mem, disk, n);
      AheadRefl(disk, logged);
      var addr := mem[n].addrs[i];
      if addr == 0 {
        r := Balloc();
        if r.None? {
          return None;
        }
        addr := r.value;
        ghost var s0 := if i < NDIRECT then Direct(n, i) else IndPtr(n);
        AllocAhead(sb, old(disk), addr, old(logged));
        FillAddr(sb, mem, old(disk), owner, n, i, addr);
        mem := SetAddr(mem, n, i, addr);
        owner := owner[addr := s0];
      } else {
        AddrInRange(sb, mem, disk, owner, n, i);
      }
      return Some(addr);
    }

    /** The place where `bmap` fills an entry of the indirect block a. */
    method EnsureEntry(n: nat, j: nat) returns (r: Option<nat>)
      requires Valid() && n < |mem| && j < NINDIRECT && mem[n].addrs[NDIRECT] != 0
      modifies this`disk, this`owner, this`logged
      ensures Valid() && Extended(old(mem), old(disk), mem, disk, n)
      ensures r.Some? ==> r.value == IndWord(disk, mem[n].addrs[NDIRECT], j) && r.value != 0
      ensures IndWord(old(disk), mem[n].addrs[NDIRECT], j) != 0 ==>
                r.Some? && disk == old(disk) && owner == old(owner) && logged == old(logged)
      ensures r.None? ==> disk == old(disk) && logged == old(logged) && NoneFree(sb, disk)
      ensures r.Some? ==> r.value < sb.size
      ensures r.Some? ==> logged <= old(logged) + {BBlock(sb, r.value), r.value, mem[n].addrs[NDIRECT]}
      ensures Ahead(old(disk), disk, old(logged), logged)
    {
      hide SlotVal, ByteAt, SlotsOwn, MapExact, InUse, Grows, Alloc, GetWord, SetEntry, Ahead;
      ExtendedRefl(mem, disk, n);
      AheadRefl(disk, logged);
      var a := mem[n].addrs[NDIRECT];
      IndBlockOwned(sb, mem, disk, owner, n);
      var addr := GetWord(disk[a], j);
      if addr == 0 {
        r := Balloc();
        if r.None? {
          return None;
        }
        addr := r.value;
        AllocAhead(sb, old(disk), addr, old(logged));
        EntryAhead(old(disk), old(logged), disk, logged, a, j, addr);
        FillEntry(sb, mem, old(disk), owner, n, j, addr);
        disk := SetEntry(disk, a, j, addr);
        owner := owner[addr := Entry(n, j)];
        logged := logged + {a};
      } else {
        EntryInRange(sb, mem, disk, owner, n, j);
      }
      return Some(addr);
    }

    /** `bmap`: the block of the bn-th block of file n, allocated if need be. None is a panic. */
    method Bmap(n: nat, bn: nat) returns (r: Option<nat>)
      requires Valid() && n < |mem|
      modifies this`disk, this`mem, this`owner, this`logged
      ensures Valid() && Extended(old(mem), old(disk), mem, disk, n)
      ensures r.Some? ==> bn < MAXFILE && r.value == BlockOf(mem, disk, n, bn) && 0 != r.value < |disk| == sb.size
      ensures bn < MAXFILE && BlockOf(old(mem), old(disk), n, bn) != 0 ==>
                r.Some? && mem == old(mem) && disk == old(disk) && logged == old(logged)
      ensures r.Some? ==> AddrsFilled(old(mem)[n].addrs, mem[n].addrs, AddrOf(bn))
      ensures r.None? && bn < MAXFILE ==> NoneFree(sb, disk)
      ensures r.None? && bn < NDIRECT ==> mem == old(mem) && disk == old(disk)
      ensures sb.size <= BPB && r.Some? ==>
                forall b | b in logged && b !in old(logged) ::
                  b == sb.bmapstart || b == r.value || 0 != b == mem[n].addrs[NDIRECT]
      ensures Ahead(old(disk), disk, old(logged), logged)
    {
      hide SlotsOwn, MapExact, SameBytes, KeepsBlocks, GetWord, Ahead;
      if bn < NDIRECT {
        r := EnsureAddr(n, bn);
        return;
      }
      var j := bn - NDIRECT;
      if j < NINDIRECT {
        var a := EnsureAddr(n, NDIRECT);
        if a.None? {
          return None;
        }
        ghost var m1, d1, l1 := mem, disk, logged;
        r := EnsureEntry(n, j);
        ExtendedTrans(old(mem), old(disk), m1, d1, mem, disk, n);
        AheadTrans(old(disk), old(logged), d1, l1, disk, logged);
        return;
      }
      ExtendedRefl(mem, disk, n);
      AheadRefl(disk, logged);
      return None;
    }

    /** `iupdate`: the on-disk inode becomes the in-memory one. */
    method Iupdate(n: nat)
      requires n < |mem| && |mem| == |dsk|
      modifies this`dsk, this`logged
      ensures dsk == old(dsk)[n := mem[n]] && logged == old(logged) + {IBlock(sb, n)}
    {
      dsk := dsk[n := mem[n]];
      logged := logged + {IBlock(sb, n)};
    }

    /** The direct half of `itrunc`. */
    method TruncDirect(n: nat) returns (ok: bool)
      requires Valid() && n < |mem|
      modifies this`disk, this`mem, this`owner, this`logged
      ensures ok && Valid() && |mem| == old(|mem|)
      ensures owner == DropDirect(old(owner), n, NDIRECT)
      ensures forall m | 0 <= m < |mem| && m != n :: mem[m] == old(mem)[m]
      ensures ClearedUpTo(old(mem)[n], mem[n], NDIRECT)
      ensures |disk| == old(|disk|) && forall c | sb.nmeta <= c < |disk| :: disk[c] == old(disk)[c]
      ensures Ahead(old(disk), disk, old(logged), logged)
    {
      hide SlotVal, SlotsOwn, MapExact, InUse, WithBitAt, Ahead;
      DropNone(owner, n);
      AheadRefl(disk, logged);
      for i := 0 to NDIRECT
        invariant Valid() && |mem| == old(|mem|)
        invariant owner == DropDirect(old(owner), n, i)
        invariant forall m | 0 <= m < |mem| && m != n :: mem[m] == old(mem)[m]
        invariant ClearedUpTo(old(mem)[n], mem[n], i)
        invariant |disk| == old(|disk|) && forall c | sb.nmeta <= c < |disk| :: disk[c] == old(disk)[c]
        invariant Ahead(old(disk), disk, old(logged), logged)
      {
        var b := mem[n].addrs[i];
        if b != 0 {
          UnlinkDirect(sb, mem, disk, owner, n, i);
          ghost var ns, d, l := mem, disk, logged;
          var freed := Bfree(b);
          if !freed {
            assert false;
          }
          FreeAhead(sb, old(disk), old(logged), d, l, b);
          DropOne(sb, ns, d, owner, old(owner), n, i);
          mem := SetAddr(mem, n, i, 0);
          owner := owner - {b};
        } else {
          DropNothing(sb, mem, disk, owner, old(owner), n, i);
        }
      }
      return true;
    }

    /** The indirect half of `itrunc`, when there is an indirect block. */
    method TruncIndirect(n: nat) returns (ok: bool)
      requires Valid() && n < |mem| && mem[n].addrs[NDIRECT] != 0
      modifies this`disk, this`mem, this`owner, this`logged
      ensures ok && Valid() && mem == SetAddr(old(mem), n, NDIRECT, 0)
      ensures owner == old(owner) - (EntryBlocks(old(mem), old(disk), n, NINDIRECT) + {old(mem)[n].addrs[NDIRECT]})
      ensures |disk| == old(|disk|) && forall c | sb.nmeta <= c < |disk| :: disk[c] == old(disk)[c]
      ensures Ahead(old(disk), disk, old(logged), logged)
    {
      hide SlotsOwn, InUse, WithBitAt, GetWord, EntryBlocks, Ahead;
      AheadRefl(disk, logged);
      var a := mem[n].addrs[NDIRECT];
      IndBlockOwned(sb, mem, disk, owner, n);
      ghost var d0 := disk;
      NoEntries(sb, mem, disk, owner, n);
      for j := 0 to NINDIRECT
        invariant mem == old(mem) && owner == old(owner) && SlotsOwn(sb, mem, d0, owner)
        invariant SuperOk(sb, disk) && SlotsOwn(sb, mem, disk, owner)
        invariant MapExactBut(sb, disk, owner, EntryBlocks(mem, d0, n, j))
        invariant |disk| == |d0| && forall c | sb.nmeta <= c < |disk| :: disk[c] == d0[c]
        invariant forall s | ValidSlot(|mem|, s) :: SlotVal(mem, disk, s) == SlotVal(mem, d0, s)
        invariant Ahead(old(disk), disk, old(logged), logged)
      {
        var b := GetWord(disk[a], j);
        NextEntry(sb, mem, d0, owner, n, j);
        assert b == SlotVal(mem, disk, Entry(n, j));
        if b != 0 {
          FreeBit(sb, mem, disk, owner, EntryBlocks(mem, d0, n, j), b);
          ghost var d, l := disk, logged;
          var freed := Bfree(b);
          if !freed {
            assert false;
          }
          FreeAhead(sb, old(disk), old(logged), d, l, b);
        }
      }
      PointerNotEntry(sb, mem, d0, owner, n);
      FreeBit(sb, mem, disk, owner, EntryBlocks(mem, d0, n, NINDIRECT), a);
      ghost var d, l := disk, logged;
      var freed := Bfree(a);
      if !freed {
        assert false;
      }
      FreeAhead(sb, old(disk), old(logged), d, l, a);
      UnlinkIndirect(sb, mem, d0, owner, disk, n);
      mem := SetAddr(mem, n, NDIRECT, 0);
      owner := owner - (EntryBlocks(old(mem), d0, n, NINDIRECT) + {a});
      return true;
    }

    /** `itrunc`: frees exactly the blocks of inode n, without hitting the panic of `bfree`. */
    method Itrunc(n: nat) returns (ok: bool)
      requires Valid() && n < |mem|
      modifies this`disk, this`mem, this`dsk, this`owner, this`logged
      ensures ok && Valid() && |mem| == old(|mem|)
      ensures owner == DropInode(old(owner), n)
      ensures mem[n].typ == old(mem)[n].typ && mem[n].size == 0 && forall j | 0 <= j <= NDIRECT :: mem[n].addrs[j] == 0
      ensures OthersSame(old(mem), old(disk), mem, disk, n)
      ensures dsk == old(dsk)[n := mem[n]]
      ensures Ahead(old(disk), disk, old(logged), logged) && InodesAhead(sb, old(dsk), dsk, logged)
    {
      hide SlotVal, SlotsOwn, MapExact, InUse, ByteAt, DropDirect, DropInode, EntryBlocks, IBlock;
      OwnersValid(sb, mem, disk, owner);
      ok := TruncDirect(n);
      TruncOwner(sb, mem, disk, owner, old(owner), n);
      if mem[n].addrs[NDIRECT] != 0 {
        ghost var d, l := disk, logged;
        ok := TruncIndirect(n);
        AheadTrans(old(disk), old(logged), d, l, disk, logged);
      }
      SizeKeepsOwn(sb, mem, disk, owner, n, 0);
      mem := mem[n := mem[n].(size := 0)];
      OthersUnseen(sb, old(mem), old(disk), old(owner), mem, disk, n);
      Iupdate(n);
    }

    /** `readi` into a buffer of cnt bytes: the requested slice of the file, across the direct and
        indirect blocks; a file without holes is read without allocating anything. */
    method Readi(n: nat, off: nat, cnt: nat) returns (r: IoResult, dst: seq<Byte>)
      requires Valid() && n < |mem| && off < UINT_LIMIT && cnt < UINT_LIMIT
      modifies this`disk, this`mem, this`owner, this`logged
      ensures Valid() && Extended(old(mem), old(disk), mem, disk, n)
      ensures (r.Device? || r.Fail?) ==> mem == old(mem) && disk == old(disk)
      ensures r.Device? <==> old(mem)[n].typ == T_DEV
      ensures r.Fail? <==> old(mem)[n].typ != T_DEV && (off > old(mem)[n].size || off + cnt >= UINT_LIMIT)
      ensures r.Done? ==>
                && r.n == |dst| == Min(cnt, old(mem)[n].size - off)
                && (old(mem)[n].size <= MAXFILE * BSIZE ==>
                      dst == Content(old(mem), old(disk), n)[off..off + r.n])
      ensures HoleFree(old(mem), old(disk), n) ==>
                !r.Panic? && mem == old(mem) && disk == old(disk) && logged == old(logged)
      ensures r.Panic? && old(mem)[n].size <= MAXFILE * BSIZE ==>
                NoneFree(sb, disk) && Lacks(old(mem), old(disk), n, off, cnt)
      ensures Ahead(old(disk), disk, old(logged), logged)
    {
      hide OwnInv, SlotVal, ByteAt, SameBytes, KeepsBlocks, Ahead;
      AheadRefl(disk, logged);
      dst := [];
      ExtendedRefl(mem, disk, n);
      if mem[n].typ == T_DEV {
        return Device, [];
      }
      if off > mem[n].size || off + cnt >= UINT_LIMIT {
        return Fail, [];
      }
      var todo := if off + cnt > mem[n].size then mem[n].size - off else cnt;
      var tot := 0;
      while tot < todo
        invariant 0 <= tot <= todo && |dst| == tot
        invariant Valid() && Extended(old(mem), old(disk), mem, disk, n)
        invariant BytesFrom(old(mem), old(disk), n, off, dst)
        invariant HoleFree(old(mem), old(disk), n) ==> mem == old(mem) && disk == old(disk) && logged == old(logged)
        invariant Ahead(old(disk), disk, old(logged), logged)
      {
        var pos := off + tot;
        ghost var m0, d0, l0 := mem, disk, logged;
        if HoleFree(old(mem), old(disk), n) {
          NoHoleAt(old(mem), old(disk), n, pos);
        }
        var b := Bmap(n, pos / BSIZE);
        ExtendedTrans(old(mem), old(disk), m0, d0, mem, disk, n);
        AheadTrans(old(disk), old(logged), d0, l0, disk, logged);
        if b.None? {
          if old(mem)[n].size <= MAXFILE * BSIZE {
            ReadLacks(old(mem), old(disk), m0, d0, n, off, cnt, pos);
          }
          return Panic, dst;
        }
        var m := Min(todo - tot, BSIZE - pos % BSIZE);
        var chunk := disk[b.value].bytes[pos % BSIZE..pos % BSIZE + m];
        ReadChunk(old(mem), old(disk), mem, disk, n, off, dst, b.value, m);
        dst := dst + chunk;
        tot := tot + m;
      }
      if old(mem)[n].size <= MAXFILE * BSIZE {
        BytesFromIsSlice(old(mem), old(disk), n, off, dst);
      }
      return Done(todo), dst;
    }

    /** `writei`: the bytes of src replace the file's bytes from off on; nothing else changes. */
    method Writei(n: nat, src: seq<Byte>, off: nat) returns (r: IoResult)
      requires Valid() && n < |mem| && off < UINT_LIMIT && |src| < UINT_LIMIT
      modifies this`disk, this`mem, this`dsk, this`owner, this`logged
      ensures Valid() && |mem| == old(|mem|)
      ensures (r.Device? || r.Fail?) ==>
                && mem == old(mem) && disk == old(disk) && dsk == old(dsk)
                && logged == old(logged)
      ensures r.Device? <==> old(mem)[n].typ == T_DEV
      ensures r.Fail? <==>
                && old(mem)[n].typ != T_DEV
                && (off > old(mem)[n].size || off + |src| >= UINT_LIMIT || off + |src| > MAXFILE * BSIZE)
      ensures r.Done? ==>
                && r.n == |src|
                && (old(mem)[n].size <= MAXFILE * BSIZE ==> FileBecomes(old(mem), old(disk), mem, disk, n, off, src))
                && (HoleFree(old(mem), old(disk), n) ==> HoleFree(mem, disk, n))
                && OthersSame(old(mem), old(disk), mem, disk, n)
                && (forall m | 0 <= m < |mem| && m != n && HoleFree(old(mem), old(disk), m) :: HoleFree(mem, disk, m))
                && (old(dsk)[n] == old(mem)[n] ==>
                      (dsk[n] == mem[n] <==>
                         (|src| > 0 && off + |src| > old(mem)[n].size) || AddrsInUse(old(mem)[n].addrs, off, |src|)))
                && (forall m | 0 <= m < |dsk| && m != n :: dsk[m] == old(dsk)[m])
                && AddrsAfter(old(mem)[n].addrs, mem[n].addrs, off, |src|)
                && (off + |src| <= old(mem)[n].size ==> dsk == old(dsk))
      ensures !r.Panic? ==> mem[n].typ == old(mem)[n].typ
      ensures r.Panic? ==> NoneFree(sb, disk) && Lacks(old(mem), old(disk), n, off, |src|)
      ensures r.Panic? && off / BSIZE < NDIRECT && |src| <= BSIZE - off % BSIZE ==> disk == old(disk)
      ensures sb.size <= BPB && r.Done? ==> LogBounded(sb, old(logged), logged, mem, disk, n, off, |src|)
      ensures sb.size <= BPB && r.Done? && old(logged) == {} && |src| <= 3 * BSIZE ==> |logged| <= TXN_BLOCKS
      ensures Ahead(old(disk), disk, old(logged), logged) && InodesAhead(sb, old(dsk), dsk, logged)
    {
      hide OwnInv, SlotVal, WriteProgress, LogBounded, AddrsAfter, AddrsInUse, AddrsFilled, Ahead, IBlock;
      AheadRefl(disk, logged);
      if mem[n].typ == T_DEV {
        return Device;
      }
      if off > mem[n].size || off + |src| >= UINT_LIMIT {
        return Fail;
      }
      if off + |src| > MAXFILE * BSIZE {
        return Fail;
      }
      ghost var size := mem[n].size;
      var tot := 0;
      WriteNothing(sb, mem, disk, n, off, src, logged);
      NoAddrs(mem[n].addrs, off);
      while tot < |src|
        invariant 0 <= tot <= |src| && |mem| == old(|mem|) && dsk == old(dsk)
        invariant Valid() && WriteProgress(old(mem), old(disk), mem, disk, n, off, src, tot, size)
        invariant AddrsAfter(old(mem)[n].addrs, mem[n].addrs, off, tot)
        invariant tot == 0 ==> disk == old(disk)
        invariant 0 < tot < |src| ==> |src| > BSIZE - off % BSIZE
        invariant sb.size <= BPB ==> LogBounded(sb, old(logged), logged, mem, disk, n, off, tot)
        invariant Ahead(old(disk), disk, old(logged), logged)
      {
        var pos := off + tot;
        ghost var m0, d0, l0 := mem, disk, logged;
        var b := Bmap(n, pos / BSIZE);
        AheadTrans(old(disk), old(logged), d0, l0, disk, logged);
        if b.None? {
          StillLacks(old(mem), old(disk), m0, d0, n, off, src, tot, size);
          return Panic;
        }
        var m := Min(|src| - tot, BSIZE - pos % BSIZE);
        var x := Splice(disk[b.value], pos % BSIZE, src[tot..tot + m]);
        StepProgress(sb, old(mem), old(disk), m0, d0, mem, disk, owner, n, off, src, tot, m, size, disk[b.value := x]);
        if sb.size <= BPB {
          StepLog(sb, old(logged), l0, logged, m0, d0, mem, disk, owner, n, off, tot, m, x);
        }
        AddrsStep(old(mem)[n].addrs, m0[n].addrs, mem[n].addrs, off, tot, m);
        AheadOne(disk, b.value, x, logged);
        AheadTrans(old(disk), old(logged), disk, logged, disk[b.value := x], logged + {b.value});
        disk := disk[b.value := x];
        logged := logged + {b.value};
        tot := tot + m;
      }
      ProgressSize(old(mem), old(disk), mem, disk, n, off, src, tot, size);
      AddrsSame(old(mem)[n].addrs, mem[n].addrs, off, |src|);
      if |src| > 0 && off + |src| > mem[n].size {
        SizeKeepsOwn(sb, mem, disk, owner, n, off + |src|);
        ResizeProgress(sb, old(mem), old(disk), mem, disk, n, off, src, size, off + |src|, old(logged), logged);
        mem := mem[n := mem[n].(size := off + |src|)];
        AheadMore(old(disk), disk, old(logged), logged, IBlock(sb, n));
        Iupdate(n);
      }
      WriteMeans(old(mem), old(disk), mem, disk, n, off, src, size, mem[n].size);
      if sb.size <= BPB && old(logged) == {} && |src| <= 3 * BSIZE {
        CountLogged(sb, logged, mem, disk, n, off, |src|);
      }
      return Done(|src|);
    }

    /** `begin_op`, as far as the blocks that an operation logs are concerned. */
    method BeginOp()
      modifies this`logged
      ensures logged == {}
    {
      logged := {};
    }

    /** `end_op`: the transaction of the operation is complete. */
    method EndOp()
      modifies this`txns
      ensures txns == old(txns) + [logged]
    {
      txns := txns + [logged];
    }

    /** One round of the loop of `filewrite`: a transaction of its own. */
    method WriteChunk(n: nat, src: seq<Byte>, off: nat) returns (r: IoResult)
      requires Valid() && n < |mem| && off < UINT_LIMIT && |src| <= 3 * BSIZE
      modifies this`disk, this`mem, this`dsk, this`owner, this`logged, this`txns
      ensures Valid() && |mem| == old(|mem|)
      ensures r.Panic? ==> txns == old(txns)
      ensures !r.Panic? ==> |txns| == old(|txns|) + 1 && txns[..|txns| - 1] == old(txns)
      ensures sb.size <= BPB && !r.Panic? ==> |txns[|txns| - 1]| <= TXN_BLOCKS
      ensures r.Device? || r.Fail? ==> mem == old(mem) && disk == old(disk) && dsk == old(dsk)
      ensures r.Device? <==> old(mem)[n].typ == T_DEV
      ensures r.Fail? <==> old(mem)[n].typ != T_DEV && OutOfRange(old(mem)[n].size, off, |src|)
      ensures r.Panic? ==> NoneFree(sb, disk)
      ensures !r.Panic? ==> mem[n].typ == old(mem)[n].typ
      ensures r.Done? ==>
                && off + |src| < UINT_LIMIT
                && (old(mem)[n].size <= MAXFILE * BSIZE ==> FileBecomes(old(mem), old(disk), mem, disk, n, off, src))
                && OthersSame(old(mem), old(disk), mem, disk, n)
                && (HoleFree(old(mem), old(disk), n) ==>
                      HoleFree(mem, disk, n) && (old(dsk)[n] == old(mem)[n] ==> dsk[n] == mem[n]))
      ensures !r.Panic? ==>
                && Ahead(old(disk), disk, {}, txns[|txns| - 1])
                && InodesAhead(sb, old(dsk), dsk, txns[|txns| - 1])
    {
      hide OwnInv, SlotVal, ByteAt, LogBounded, Content, Overwrite, FileBecomes, AddrsInUse, HoleFree;
      hide Ahead, InodesAhead;
      BeginOp();
      if HoleFree(mem, disk, n) && off + |src| <= mem[n].size {
        HoleFreeInUse(mem, disk, n, off, |src|);
      } else if |src| == 0 {
        NothingInUse(mem[n].addrs, off);
      }
      r := Writei(n, src, off);
      if !r.Panic? {
        EndOp();
      }
    }

    /** The FD_INODE branch of `filewrite` from file offset off0: one transaction per chunk of three block
        lengths, and no transaction logs more than seven blocks when the free map is a single block. */
    method FileWrite(n: nat, data: seq<Byte>, off0: nat) returns (r: IoResult, off: nat)
      requires Valid() && n < |mem| && off0 < UINT_LIMIT && |data| < UINT_LIMIT
      modifies this`disk, this`mem, this`dsk, this`owner, this`logged, this`txns
      ensures Valid() && |mem| == old(|mem|)
      ensures SmallTxns(sb, old(txns), txns)
      ensures r.Done? ==> r.n == |data| && |txns| == old(|txns|) + Chunks(|data|)
      ensures r.Panic? ==> NoneFree(sb, disk)
      ensures r.Device? <==> old(mem)[n].typ == T_DEV && data != []
      ensures r.Fail? ==>
                && off0 <= off < off0 + |data|
                && OutOfRange(mem[n].size, off, Min(3 * BSIZE, off0 + |data| - off))
      ensures (r.Done? || r.Fail?) && off0 <= old(mem)[n].size <= MAXFILE * BSIZE ==>
                && off0 <= off <= off0 + |data| && (r.Done? <==> off == off0 + |data|)
                && FileBecomes(old(mem), old(disk), mem, disk, n, off0, data[..off - off0])
      ensures (r.Done? || r.Fail?) && HoleFree(old(mem), old(disk), n) ==>
                HoleFree(mem, disk, n) && (old(dsk)[n] == old(mem)[n] ==> dsk[n] == mem[n])
      ensures (r.Done? || r.Fail?) ==> OthersSame(old(mem), old(disk), mem, disk, n)
      ensures !r.Panic? ==> InTxns(sb, old(disk), disk, old(dsk), dsk, old(txns), txns)
    {
      hide OwnInv, SlotVal, ByteAt, Content, Overwrite, FileBecomes, HoleFree, SmallTxns, Chunks, OthersSame;
      hide Ahead, InodesAhead, InTxns;
      InTxnsRefl(sb, disk, dsk, txns);
      var max := (MAXOPBLOCKS - 1 - 1 - 2) / 2 * 512;
      var i := 0;
      off := off0;
      ghost var good := off0 <= mem[n].size <= MAXFILE * BSIZE;
      if good {
        NothingWritten(mem, disk, n, off0);
        assert data[..0] == [];
      }
      OthersRefl(mem, disk, n);
      NoTxns(sb, txns);
      while i < |data|
        invariant 0 <= i <= |data| && off == off0 + i && off < UINT_LIMIT && Valid() && |mem| == old(|mem|)
        invariant SmallTxns(sb, old(txns), txns) && ChunkEnds(i, |data|) && |txns| == old(|txns|) + Chunks(i)
        invariant OthersSame(old(mem), old(disk), mem, disk, n)
        invariant mem[n].typ == old(mem)[n].typ && (i > 0 ==> mem[n].typ != T_DEV)
        invariant InTxns(sb, old(disk), disk, old(dsk), dsk, old(txns), txns)
        invariant good ==> FileBecomes(old(mem), old(disk), mem, disk, n, off0, data[..i])
        invariant HoleFree(old(mem), old(disk), n) ==>
                    HoleFree(mem, disk, n) && (old(dsk)[n] == old(mem)[n] ==> dsk[n] == mem[n])
      {
        var n1 := |data| - i;
        if n1 > max {
          n1 := max;
        }
        ghost var m0, d0, k0, t0 := mem, disk, dsk, txns;
        if good {
          BecomesSized(old(mem), old(disk), m0, d0, n, off0, data[..i]);
        }
        var w := WriteChunk(n, data[i..i + n1], off);
        if w.Panic? {
          return w, off;
        }
        OneMoreTxn(sb, old(txns), t0, txns);
        InTxnsStep(sb, old(disk), d0, disk, old(dsk), k0, dsk, old(txns), t0, txns);
        if w.Fail? || w.Device? {
          return w, off;
        }
        OthersTrans(old(mem), old(disk), m0, d0, mem, disk, n);
        if good {
          WrittenTwice(old(mem), old(disk), m0, d0, mem, disk, n, off0, data, i, n1);
        }
        NextChunk(i, n1, |data|);
        off := off + n1;
        i := i + n1;
      }
      assert data[..|data|] == data;
      return Done(|data|), off;
    }
  }

  lemma NothingInUse(a: Addrs, off: nat)
    ensures AddrsInUse(a, off, 0)
  {
  }

  /** Every transaction since `before` is small when the free map is one block. */
  ghost predicate SmallTxns(sb: Super, before: seq<set<nat>>, txns: seq<set<nat>>) {
    && before <= txns
    && (sb.size <= BPB ==> forall i | |before| <= i < |txns| :: |txns[i]| <= TXN_BLOCKS)
  }

  lemma NoTxns(sb: Super, txns: seq<set<nat>>)
    ensures SmallTxns(sb, txns, txns) && Chunks(0) == 0
  {
  }

  lemma OneMoreTxn(sb: Super, before: seq<set<nat>>, txns: seq<set<nat>>, txns': seq<set<nat>>)
    requires SmallTxns(sb, before, txns) && |txns'| == |txns| + 1 && txns'[..|txns|] == txns
    requires sb.size <= BPB ==> |txns'[|txns|]| <= TXN_BLOCKS
    ensures SmallTxns(sb, before, txns')
  {
    forall i | |before| <= i < |txns|
      ensures txns'[i] == txns[i]
    {
      assert txns'[..|txns|][i] == txns[i];
    }
  }

  /** i is at the end of a chunk of a write of cnt bytes. */
  predicate ChunkEnds(i: nat, cnt: nat) {
    i % (3 * BSIZE) == 0 || i == cnt
  }

  lemma NextChunk(i: nat, m: nat, cnt: nat)
    requires i < cnt && ChunkEnds(i, cnt) && m == if cnt - i > 3 * BSIZE then 3 * BSIZE else cnt - i
    ensures ChunkEnds(i + m, cnt) && Chunks(i + m) == Chunks(i) + 1
  {
  }

  /** The transactions that a write of cnt bytes takes. */
  function Chunks(cnt: nat): nat {
    (cnt + 3 * BSIZE - 1) / (3 * BSIZE)
  }

  lemma BecomesSized(ns0: seq<Inode>, disk0: Disk, ns: seq<Inode>, disk: Disk, n: nat, off: nat, src: seq<Byte>)
    requires FileBecomes(ns0, disk0, ns, disk, n, off, src)
    ensures ns[n].size <= MAXFILE * BSIZE
  {
  }

  /** The transactions of `filewrite` keep within the budget that the log can bear: if all operations are such
      transactions, no run panics or loses what has been committed. */
  lemma FileWritesFitTheLog(L: Layout, budget: nat, d: Disk, acts: seq<G.Action>)
    requires Clean(L, d) && L.size == LOGSIZE && budget <= TXN_BLOCKS && G.Legal(L, budget, G.Start(d), acts)
    ensures TXN_BLOCKS <= G.SAFE
    ensures var s := G.Exec(L, budget, G.Start(d), acts);
            && !s.phase.Panicked? && |s.lh| <= LOGSIZE - 2
            && SameHome(L, Recovered(L, s.disk), G.LastCommitted(L, budget, G.Start(d), acts, d))
  {
    hide G.Exec, G.Legal, G.LastCommitted, Recovered, SameHome, Clean;
    G.GroupCommitSafe(L, budget, d, acts);
    G.DurableRuns(L, budget, d, acts);
  }
}

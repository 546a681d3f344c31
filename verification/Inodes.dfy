/** Inodes, block slots and the free map: what the on-disk structures of fs.h mean. Both the kernel
    (fs.c) and the image builder (mkfs.c) are proved against these definitions. */
module Inodes {
  import opened Common
  import opened Blocks
  import opened RedoLog

  const NDIRECT: nat := 7
  const NINDIRECT: nat := 128
  const MAXFILE: nat := 135
  const IPB: nat := 8

  type Addrs = s: seq<nat> | |s| == NDIRECT + 1 witness seq(NDIRECT + 1, _ => 0)

  datatype Inode = Inode(typ: int, size: nat, addrs: Addrs)

  /** The superblock fields the block layer uses; blocks below nmeta hold metadata. */
  datatype Super = Super(size: nat, inodestart: nat, bmapstart: nat, nmeta: nat)

  /** A place that can hold the number of a data block. */
  datatype Slot = Direct(inum: nat, i: nat) | IndPtr(inum: nat) | Entry(inum: nat, j: nat)

  predicate ValidSlot(count: nat, s: Slot) {
    s.inum < count && match s
      case Direct(_, i) => i < NDIRECT
      case IndPtr(_) => true
      case Entry(_, j) => j < NINDIRECT
  }

  /** The block number in a slot, 0 when it is empty. */
  function SlotVal(ns: seq<Inode>, disk: Disk, s: Slot): nat
    requires ValidSlot(|ns|, s)
  {
    match s
    case Direct(n, i) => ns[n].addrs[i]
    case IndPtr(n) => ns[n].addrs[NDIRECT]
    case Entry(n, j) => IndWord(disk, ns[n].addrs[NDIRECT], j)
  }

  /** Entry j of the indirect block a. */
  function IndWord(disk: Disk, a: nat, j: nat): nat
    requires j < NINDIRECT
  {
    if a == 0 || a >= |disk| then 0 else GetWord(disk[a], j)
  }

  /** The slot of the bn-th block of a file. */
  function DataSlot(n: nat, bn: nat): Slot {
    if bn < NDIRECT then Direct(n, bn) else Entry(n, bn - NDIRECT)
  }

  function BlockOf(ns: seq<Inode>, disk: Disk, n: nat, bn: nat): nat
    requires n < |ns| && bn < MAXFILE
  {
    SlotVal(ns, disk, DataSlot(n, bn))
  }

  // ---------- free map ----------

  ghost predicate SuperOk(sb: Super, disk: Disk) {
    && |disk| == sb.size <= UINT_LIMIT
    && 0 < sb.nmeta <= sb.size
    && sb.bmapstart + (sb.size - 1) / BPB < sb.nmeta
  }

  function BBlock(sb: Super, b: nat): nat {
    b / BPB + sb.bmapstart
  }

  lemma BBlockIsMeta(sb: Super, disk: Disk, b: nat)
    requires SuperOk(sb, disk) && b < sb.size
    ensures BBlock(sb, b) < sb.nmeta
  {
    assert b / BPB <= (sb.size - 1) / BPB;
  }

  predicate InUse(sb: Super, disk: Disk, b: nat) {
    BBlock(sb, b) < |disk| && BlockBit(disk[BBlock(sb, b)], b % BPB)
  }

  /** The disk with bit b of the free map set or cleared. */
  function WithBitAt(sb: Super, disk: Disk, b: nat, on: bool): (d: Disk)
    requires BBlock(sb, b) < |disk|
    ensures |d| == |disk|
  {
    disk[BBlock(sb, b) := WithBlockBit(disk[BBlock(sb, b)], b % BPB, on)]
  }

  lemma BitAt(sb: Super, disk: Disk, b: nat, on: bool)
    requires BBlock(sb, b) < |disk|
    ensures InUse(sb, WithBitAt(sb, disk, b, on), b) == on
    ensures forall c: nat | c != b :: InUse(sb, WithBitAt(sb, disk, b, on), c) == InUse(sb, disk, c)
    ensures forall c: nat | c < |disk| && c != BBlock(sb, b) :: WithBitAt(sb, disk, b, on)[c] == disk[c]
  {
    forall c: nat | c != b
      ensures InUse(sb, WithBitAt(sb, disk, b, on), c) == InUse(sb, disk, c)
    {
      if BBlock(sb, c) == BBlock(sb, b) {
        assert c % BPB != b % BPB;
      }
    }
  }

  // ---------- ownership ----------

  /** Every occupied slot owns its block, and no block has two slots. */
  ghost predicate SlotsOwn(sb: Super, ns: seq<Inode>, disk: Disk, owner: map<nat, Slot>) {
    && (forall s | ValidSlot(|ns|, s) && SlotVal(ns, disk, s) != 0 ::
          SlotVal(ns, disk, s) in owner && owner[SlotVal(ns, disk, s)] == s)
    && (forall b | b in owner ::
          sb.nmeta <= b < sb.size && ValidSlot(|ns|, owner[b]) && SlotVal(ns, disk, owner[b]) == b)
  }

  /** A bit of the free map is set exactly for metadata and for owned blocks. */
  ghost predicate MapExact(sb: Super, disk: Disk, owner: map<nat, Slot>) {
    forall b | 0 <= b < sb.size :: InUse(sb, disk, b) <==> b < sb.nmeta || b in owner
  }

  ghost predicate OwnInv(sb: Super, ns: seq<Inode>, disk: Disk, owner: map<nat, Slot>) {
    SuperOk(sb, disk) && SlotsOwn(sb, ns, disk, owner) && MapExact(sb, disk, owner)
  }

  // ---------- allocation ----------

  /** The disk after `balloc` has picked block b: its bit set, its contents zero. */
  function Alloc(sb: Super, disk: Disk, b: nat): (d: Disk)
    requires BBlock(sb, b) < |disk| && b < |disk|
    ensures |d| == |disk|
  {
    WithBitAt(sb, disk, b, true)[b := ZeroBlock()]
  }

  ghost predicate SameBits(sb: Super, disk: Disk, disk': Disk) {
    forall c | 0 <= c < sb.size :: InUse(sb, disk', c) == InUse(sb, disk, c)
  }

  /** Writing a block outside the metadata changes no bit. */
  lemma DataWriteBits(sb: Super, disk: Disk, a: nat, x: Block)
    requires SuperOk(sb, disk) && sb.nmeta <= a < sb.size
    ensures SameBits(sb, disk, disk[a := x])
  {
    forall c | 0 <= c < sb.size
      ensures InUse(sb, disk[a := x], c) == InUse(sb, disk, c)
    {
      BBlockIsMeta(sb, disk, c);
    }
  }

  lemma AllocFacts(sb: Super, disk: Disk, b: nat)
    requires SuperOk(sb, disk) && sb.nmeta <= b < sb.size
    ensures BBlock(sb, b) < sb.nmeta && SuperOk(sb, Alloc(sb, disk, b))
    ensures InUse(sb, Alloc(sb, disk, b), b) && Alloc(sb, disk, b)[b] == ZeroBlock()
    ensures forall c | 0 <= c < sb.size && c != b :: InUse(sb, Alloc(sb, disk, b), c) == InUse(sb, disk, c)
    ensures forall c | sb.nmeta <= c < sb.size && c != b :: Alloc(sb, disk, b)[c] == disk[c]
  {
    hide InUse, WithBitAt;
    BBlockIsMeta(sb, disk, b);
    BitAt(sb, disk, b, true);
    var d := WithBitAt(sb, disk, b, true);
    DataWriteBits(sb, d, b, ZeroBlock());
    assert SameBits(sb, d, Alloc(sb, disk, b));
  }

  /** One or more slots have been filled: the other slots, the file data and all sizes are as before. */
  ghost predicate Grows(ns: seq<Inode>, disk: Disk, owner: map<nat, Slot>,
                        ns': seq<Inode>, disk': Disk, owner': map<nat, Slot>, added: set<Slot>)
  {
    && |ns'| == |ns| && |disk'| == |disk|
    && (forall m | 0 <= m < |ns| :: ns'[m].(addrs := ns[m].addrs) == ns[m])
    && (forall m | 0 <= m < |ns| && (forall s | s in added :: s.inum != m) :: ns'[m] == ns[m])
    && (forall s | ValidSlot(|ns|, s) && s !in added :: SlotVal(ns', disk', s) == SlotVal(ns, disk, s))
    && (forall c | c in owner :: c in owner' && owner'[c] == owner[c])
    && (forall c | c in owner && c < |disk| && !owner[c].IndPtr? :: disk'[c] == disk[c])
  }

  lemma OwnAdd(sb: Super, ns: seq<Inode>, disk: Disk, owner: map<nat, Slot>, ns': seq<Inode>, disk': Disk, s0: Slot,
               b: nat)
    requires SlotsOwn(sb, ns, disk, owner) && |ns'| == |ns| && ValidSlot(|ns|, s0)
    requires 0 < sb.nmeta <= b < sb.size && b !in owner
    requires SlotVal(ns, disk, s0) == 0 && SlotVal(ns', disk', s0) == b
    requires forall s | ValidSlot(|ns|, s) && s != s0 :: SlotVal(ns', disk', s) == SlotVal(ns, disk, s)
    ensures SlotsOwn(sb, ns', disk', owner[b := s0])
  {
    hide SlotVal;
    forall c | c in owner
      ensures owner[c] != s0
    {
      assert SlotVal(ns, disk, owner[c]) == c;
    }
  }

  lemma MapAdd(sb: Super, disk: Disk, disk': Disk, owner: map<nat, Slot>, s0: Slot, b: nat)
    requires MapExact(sb, disk, owner) && |disk'| == |disk| && b < sb.size
    requires InUse(sb, disk', b) && forall c | 0 <= c < sb.size && c != b :: InUse(sb, disk', c) == InUse(sb, disk, c)
    ensures MapExact(sb, disk', owner[b := s0])
  {
    hide InUse;
  }

  /** A block that is not in use is a data block that nothing owns. */
  lemma FreeIsUnowned(sb: Super, ns: seq<Inode>, disk: Disk, owner: map<nat, Slot>, b: nat)
    requires OwnInv(sb, ns, disk, owner) && b < sb.size && !InUse(sb, disk, b)
    ensures sb.nmeta <= b && b !in owner
  {
    hide InUse, SlotVal;
  }

  /** The indirect block of an inode is a data block. */
  lemma IndBlockOwned(sb: Super, ns: seq<Inode>, disk: Disk, owner: map<nat, Slot>, n: nat)
    requires SlotsOwn(sb, ns, disk, owner) && n < |ns| && ns[n].addrs[NDIRECT] != 0
    ensures var a := ns[n].addrs[NDIRECT]; sb.nmeta <= a < sb.size && a in owner && owner[a] == IndPtr(n)
  {
    assert SlotVal(ns, disk, IndPtr(n)) == ns[n].addrs[NDIRECT];
  }

  /** Allocating a block changes no slot. */
  lemma AllocKeepsSlots(sb: Super, ns: seq<Inode>, disk: Disk, owner: map<nat, Slot>, b: nat)
    requires OwnInv(sb, ns, disk, owner) && sb.nmeta <= b < sb.size && b !in owner
    ensures BBlock(sb, b) < |disk|
    ensures forall s | ValidSlot(|ns|, s) :: SlotVal(ns, Alloc(sb, disk, b), s) == SlotVal(ns, disk, s)
  {
    hide Alloc, InUse, SlotsOwn, MapExact;
    AllocFacts(sb, disk, b);
    forall s | ValidSlot(|ns|, s)
      ensures SlotVal(ns, Alloc(sb, disk, b), s) == SlotVal(ns, disk, s)
    {
      if s.Entry? && ns[s.inum].addrs[NDIRECT] != 0 {
        IndBlockOwned(sb, ns, disk, owner, s.inum);
      }
    }
  }

  function SetAddr(ns: seq<Inode>, n: nat, i: nat, b: nat): (r: seq<Inode>)
    requires n < |ns| && i <= NDIRECT
    ensures |r| == |ns|
  {
    ns[n := ns[n].(addrs := ns[n].addrs[i := b])]
  }

  /** Filling an empty address of inode n (direct or indirect pointer) with a fresh block. */
  lemma LinkAddr(sb: Super, ns: seq<Inode>, disk: Disk, owner: map<nat, Slot>, n: nat, i: nat, b: nat)
    requires OwnInv(sb, ns, disk, owner) && n < |ns| && i <= NDIRECT && ns[n].addrs[i] == 0
    requires sb.nmeta <= b < sb.size && b !in owner && BBlock(sb, b) < |disk|
    ensures var s0 := if i < NDIRECT then Direct(n, i) else IndPtr(n);
            && OwnInv(sb, SetAddr(ns, n, i, b), Alloc(sb, disk, b), owner[b := s0])
            && Grows(ns, disk, owner, SetAddr(ns, n, i, b), Alloc(sb, disk, b), owner[b := s0], {s0})
  {
    hide Alloc, InUse, SlotsOwn, MapExact, GetWord;
    var s0 := if i < NDIRECT then Direct(n, i) else IndPtr(n);
    var ns', disk' := SetAddr(ns, n, i, b), Alloc(sb, disk, b);
    AllocFacts(sb, disk, b);
    AllocKeepsSlots(sb, ns, disk, owner, b);
    forall s | ValidSlot(|ns|, s) && s != s0
      ensures SlotVal(ns', disk', s) == SlotVal(ns, disk, s)
    {
      assert SlotVal(ns, disk', s) == SlotVal(ns, disk, s);
    }
    OwnAdd(sb, ns, disk, owner, ns', disk', s0, b);
    MapAdd(sb, disk, disk', owner, s0, b);
    OwnedAreData(sb, ns, disk, owner);
  }

  lemma OwnedAreData(sb: Super, ns: seq<Inode>, disk: Disk, owner: map<nat, Slot>)
    requires SlotsOwn(sb, ns, disk, owner)
    ensures forall c | c in owner :: sb.nmeta <= c < sb.size
  {
    hide SlotVal;
  }

  /** Entry j of the indirect block a becomes b. */
  function SetEntry(disk: Disk, a: nat, j: nat, b: nat): (r: Disk)
    requires a < |disk| && j < NINDIRECT && b < UINT_LIMIT
    ensures |r| == |disk|
  {
    disk[a := PutWord(disk[a], j, b)]
  }

  lemma SetEntrySlots(sb: Super, ns: seq<Inode>, disk: Disk, owner: map<nat, Slot>, n: nat, j: nat, b: nat)
    requires SlotsOwn(sb, ns, disk, owner) && sb.size == |disk| && 0 < sb.nmeta
    requires n < |ns| && ns[n].addrs[NDIRECT] != 0 && j < NINDIRECT && b < UINT_LIMIT
    ensures var a := ns[n].addrs[NDIRECT];
            && a < |disk|
            && SlotVal(ns, SetEntry(disk, a, j, b), Entry(n, j)) == b
            && forall s | ValidSlot(|ns|, s) && s != Entry(n, j) ::
                 SlotVal(ns, SetEntry(disk, a, j, b), s) == SlotVal(ns, disk, s)
  {
    hide SlotsOwn, GetWord, PutWord;
    var a := ns[n].addrs[NDIRECT];
    IndBlockOwned(sb, ns, disk, owner, n);
    var d := SetEntry(disk, a, j, b);
    forall s | ValidSlot(|ns|, s) && s != Entry(n, j)
      ensures SlotVal(ns, d, s) == SlotVal(ns, disk, s)
    {
      if s.Entry? && ns[s.inum].addrs[NDIRECT] != 0 {
        IndBlockOwned(sb, ns, disk, owner, s.inum);
      }
    }
  }

  /** Filling an empty entry of inode n's indirect block with a fresh block. */
  lemma LinkEntry(sb: Super, ns: seq<Inode>, disk: Disk, owner: map<nat, Slot>, n: nat, j: nat, b: nat)
    requires OwnInv(sb, ns, disk, owner) && n < |ns| && ns[n].addrs[NDIRECT] != 0 && j < NINDIRECT
    requires IndWord(disk, ns[n].addrs[NDIRECT], j) == 0
    requires sb.nmeta <= b < sb.size && b !in owner && BBlock(sb, b) < |disk|
    ensures var a := ns[n].addrs[NDIRECT];
            && a < |disk| && b < UINT_LIMIT
            && OwnInv(sb, ns, SetEntry(Alloc(sb, disk, b), a, j, b), owner[b := Entry(n, j)])
            && Grows(ns, disk, owner, ns, SetEntry(Alloc(sb, disk, b), a, j, b), owner[b := Entry(n, j)], {Entry(n, j)})
  {
    hide Alloc, InUse, SlotsOwn, MapExact, GetWord, IndWord;
    var a := ns[n].addrs[NDIRECT];
    var d1 := Alloc(sb, disk, b);
    IndBlockOwned(sb, ns, disk, owner, n);
    AllocFacts(sb, disk, b);
    AllocKeepsSlots(sb, ns, disk, owner, b);
    SlotsOwnFrame(sb, ns, disk, d1, owner);
    SetEntrySlots(sb, ns, d1, owner, n, j, b);
    var d2 := SetEntry(d1, a, j, b);
    OwnAdd(sb, ns, disk, owner, ns, d2, Entry(n, j), b);
    DataWriteBits(sb, d1, a, d2[a]);
    assert d2 == d1[a := d2[a]];
    MapAdd(sb, disk, d2, owner, Entry(n, j), b);
    OwnedAreData(sb, ns, disk, owner);
  }

  lemma SlotsOwnFrame(sb: Super, ns: seq<Inode>, disk: Disk, disk': Disk, owner: map<nat, Slot>)
    requires SlotsOwn(sb, ns, disk, owner)
    requires forall s | ValidSlot(|ns|, s) :: SlotVal(ns, disk', s) == SlotVal(ns, disk, s)
    ensures SlotsOwn(sb, ns, disk', owner)
  {
    hide SlotVal;
  }

  // ---------- file contents ----------

  /** Byte k of file n, allocated or not: an absent block reads as zeros. */
  function ByteAt(ns: seq<Inode>, disk: Disk, n: nat, k: nat): Byte
    requires n < |ns| && k < MAXFILE * BSIZE
  {
    BlockByte(disk, BlockOf(ns, disk, n, k / BSIZE), k % BSIZE)
  }

  function BlockByte(disk: Disk, b: nat, r: nat): Byte
    requires r < BSIZE
  {
    if b == 0 || b >= |disk| then 0 else disk[b].bytes[r]
  }

  /** The contents of file n. */
  function Content(ns: seq<Inode>, disk: Disk, n: nat): (c: seq<Byte>)
    requires n < |ns| && ns[n].size <= MAXFILE * BSIZE
    ensures |c| == ns[n].size
  {
    seq(ns[n].size, k requires 0 <= k < ns[n].size => ByteAt(ns, disk, n, k))
  }

  /** Every block below the size of file n is allocated. */
  ghost predicate HoleFree(ns: seq<Inode>, disk: Disk, n: nat) {
    && n < |ns| && ns[n].size <= MAXFILE * BSIZE
    && forall bn | 0 <= bn < MAXFILE && bn * BSIZE < ns[n].size :: BlockOf(ns, disk, n, bn) != 0
  }

  /** Every byte of every file reads as before. */
  ghost predicate SameBytes(ns: seq<Inode>, disk: Disk, ns': seq<Inode>, disk': Disk) {
    && |ns'| == |ns|
    && forall m, k | 0 <= m < |ns| && 0 <= k < MAXFILE * BSIZE :: ByteAt(ns', disk', m, k) == ByteAt(ns, disk, m, k)
  }

  /** Filling slots with zeroed blocks cannot be seen in any file. */
  lemma GrowsUnseen(sb: Super, ns: seq<Inode>, disk: Disk, owner: map<nat, Slot>,
                    ns': seq<Inode>, disk': Disk, owner': map<nat, Slot>, s0: Slot, b: nat)
    requires SlotsOwn(sb, ns, disk, owner) && sb.size == |disk|
    requires Grows(ns, disk, owner, ns', disk', owner', {s0}) && ValidSlot(|ns|, s0)
    requires SlotVal(ns, disk, s0) == 0 && SlotVal(ns', disk', s0) == b < |disk|
    requires !s0.IndPtr? ==> disk'[b] == ZeroBlock()
    ensures SameBytes(ns, disk, ns', disk')
  {
    hide SlotVal, ZeroBlock;
    forall m, k | 0 <= m < |ns| && 0 <= k < MAXFILE * BSIZE
      ensures ByteAt(ns', disk', m, k) == ByteAt(ns, disk, m, k)
    {
      var s := DataSlot(m, k / BSIZE);
      assert ValidSlot(|ns|, s) && !s.IndPtr?;
      if s != s0 && SlotVal(ns, disk, s) != 0 {
        assert owner[SlotVal(ns, disk, s)] == s;
      }
    }
  }

  /** Byte k of file m once block bn of file n holds x. */
  function Written(ns: seq<Inode>, disk: Disk, n: nat, bn: nat, x: Block, m: nat, k: nat): Byte
    requires m < |ns| && k < MAXFILE * BSIZE
  {
    if m == n && k / BSIZE == bn then x.bytes[k % BSIZE] else ByteAt(ns, disk, m, k)
  }

  ghost predicate BlockWritten(ns: seq<Inode>, disk: Disk, disk': Disk, n: nat, bn: nat, x: Block) {
    forall m, k | 0 <= m < |ns| && 0 <= k < MAXFILE * BSIZE ::
      ByteAt(ns, disk', m, k) == Written(ns, disk, n, bn, x, m, k)
  }

  /** Writing block bn of file n: the bytes of that block change, no other byte and no slot does. */
  lemma WriteData(sb: Super, ns: seq<Inode>, disk: Disk, owner: map<nat, Slot>, n: nat, bn: nat, x: Block)
    requires SlotsOwn(sb, ns, disk, owner) && |disk| == sb.size
    requires n < |ns| && bn < MAXFILE && BlockOf(ns, disk, n, bn) != 0
    ensures var b := BlockOf(ns, disk, n, bn);
            && b < |disk|
            && SlotsOwn(sb, ns, disk[b := x], owner)
            && (forall s | ValidSlot(|ns|, s) :: SlotVal(ns, disk[b := x], s) == SlotVal(ns, disk, s))
            && BlockWritten(ns, disk, disk[b := x], n, bn, x)
  {
    hide SlotsOwn;
    var b := BlockOf(ns, disk, n, bn);
    DataOwned(sb, ns, disk, owner, n, bn);
    var d := disk[b := x];
    forall s | ValidSlot(|ns|, s)
      ensures SlotVal(ns, d, s) == SlotVal(ns, disk, s)
    {
      if s.Entry? && ns[s.inum].addrs[NDIRECT] != 0 {
        IndBlockOwned(sb, ns, disk, owner, s.inum);
      }
    }
    SlotsOwnFrame(sb, ns, disk, d, owner);
    WriteDataBytes(sb, ns, disk, owner, n, bn, x);
  }

  /** The same write leaves the whole ownership invariant in place. */
  lemma WriteDataOwn(sb: Super, ns: seq<Inode>, disk: Disk, owner: map<nat, Slot>, n: nat, bn: nat, x: Block)
    requires OwnInv(sb, ns, disk, owner) && n < |ns| && bn < MAXFILE && BlockOf(ns, disk, n, bn) != 0
    ensures BlockOf(ns, disk, n, bn) < |disk| && OwnInv(sb, ns, disk[BlockOf(ns, disk, n, bn) := x], owner)
  {
    hide SlotsOwn, InUse, MapExact, BlockOf;
    var b := BlockOf(ns, disk, n, bn);
    DataOwned(sb, ns, disk, owner, n, bn);
    WriteData(sb, ns, disk, owner, n, bn, x);
    DataWriteBits(sb, disk, b, x);
    MapFrame(sb, disk, disk[b := x], owner);
  }

  lemma MapFrame(sb: Super, disk: Disk, disk': Disk, owner: map<nat, Slot>)
    requires MapExact(sb, disk, owner) && SameBits(sb, disk, disk')
    ensures MapExact(sb, disk', owner)
  {
    hide InUse;
  }

  lemma DataOwned(sb: Super, ns: seq<Inode>, disk: Disk, owner: map<nat, Slot>, n: nat, bn: nat)
    requires SlotsOwn(sb, ns, disk, owner) && n < |ns| && bn < MAXFILE && BlockOf(ns, disk, n, bn) != 0
    ensures var b := BlockOf(ns, disk, n, bn); sb.nmeta <= b < sb.size && b in owner && owner[b] == DataSlot(n, bn)
  {
    hide SlotVal;
    assert ValidSlot(|ns|, DataSlot(n, bn));
  }

  lemma WriteDataBytes(sb: Super, ns: seq<Inode>, disk: Disk, owner: map<nat, Slot>, n: nat, bn: nat, x: Block)
    requires SlotsOwn(sb, ns, disk, owner) && sb.size == |disk| && n < |ns| && bn < MAXFILE
               && BlockOf(ns, disk, n, bn) != 0
    requires BlockOf(ns, disk, n, bn) < |disk|
    requires forall s | ValidSlot(|ns|, s) ::
               SlotVal(ns, disk[BlockOf(ns, disk, n, bn) := x], s) == SlotVal(ns, disk, s)
    ensures BlockWritten(ns, disk, disk[BlockOf(ns, disk, n, bn) := x], n, bn, x)
  {
    hide SlotsOwn, SlotVal;
    var b := BlockOf(ns, disk, n, bn);
    forall m, k | 0 <= m < |ns| && 0 <= k < MAXFILE * BSIZE
      ensures ByteAt(ns, disk[b := x], m, k) == Written(ns, disk, n, bn, x, m, k)
    {
      assert ValidSlot(|ns|, DataSlot(m, k / BSIZE));
      if BlockOf(ns, disk, m, k / BSIZE) == b {
        DataOwned(sb, ns, disk, owner, m, k / BSIZE);
        DataOwned(sb, ns, disk, owner, n, bn);
      }
    }
  }

  // ---------- freeing ----------

  /** The free map when the blocks of `gone` have been given back although slots still name them. */
  ghost predicate MapExactBut(sb: Super, disk: Disk, owner: map<nat, Slot>, gone: set<nat>) {
    forall b | 0 <= b < sb.size :: InUse(sb, disk, b) <==> b < sb.nmeta || (b in owner && b !in gone)
  }

  /** Giving back an owned block: its bit was set, and only that bit changes. */
  lemma FreeBit(sb: Super, ns: seq<Inode>, disk: Disk, owner: map<nat, Slot>, gone: set<nat>, b: nat)
    requires SuperOk(sb, disk) && SlotsOwn(sb, ns, disk, owner) && MapExactBut(sb, disk, owner, gone)
    requires b in owner && b !in gone
    ensures b < sb.size && InUse(sb, disk, b) && BBlock(sb, b) < sb.nmeta
    ensures MapExactBut(sb, WithBitAt(sb, disk, b, false), owner, gone + {b})
    ensures SlotsOwn(sb, ns, WithBitAt(sb, disk, b, false), owner)
    ensures SuperOk(sb, WithBitAt(sb, disk, b, false))
    ensures forall c | sb.nmeta <= c < |disk| :: WithBitAt(sb, disk, b, false)[c] == disk[c]
    ensures forall s | ValidSlot(|ns|, s) :: SlotVal(ns, WithBitAt(sb, disk, b, false), s) == SlotVal(ns, disk, s)
  {
    hide SlotsOwn, InUse, WithBitAt;
    OwnedAreData(sb, ns, disk, owner);
    BBlockIsMeta(sb, disk, b);
    BitAt(sb, disk, b, false);
    MetaWriteSlots(sb, ns, disk, WithBitAt(sb, disk, b, false), owner);
    SlotsOwnFrame(sb, ns, disk, WithBitAt(sb, disk, b, false), owner);
  }

  /** Changing metadata blocks changes no slot. */
  lemma MetaWriteSlots(sb: Super, ns: seq<Inode>, disk: Disk, disk': Disk, owner: map<nat, Slot>)
    requires SuperOk(sb, disk) && SlotsOwn(sb, ns, disk, owner) && |disk'| == |disk|
    requires forall c | sb.nmeta <= c < |disk| :: disk'[c] == disk[c]
    ensures forall s | ValidSlot(|ns|, s) :: SlotVal(ns, disk', s) == SlotVal(ns, disk, s)
  {
    hide SlotsOwn;
    forall s | ValidSlot(|ns|, s)
      ensures SlotVal(ns, disk', s) == SlotVal(ns, disk, s)
    {
      if s.Entry? && ns[s.inum].addrs[NDIRECT] != 0 {
        IndBlockOwned(sb, ns, disk, owner, s.inum);
      }
    }
  }

  /** Some slots have been emptied and their blocks given back. */
  lemma OwnRemove(sb: Super, ns: seq<Inode>, disk: Disk, owner: map<nat, Slot>, ns': seq<Inode>, disk': Disk,
                  gone: set<nat>)
    requires SlotsOwn(sb, ns, disk, owner) && MapExactBut(sb, disk', owner, gone) && |ns'| == |ns| && 0 < sb.nmeta
    requires forall s | ValidSlot(|ns|, s) ::
               SlotVal(ns', disk', s) == (if SlotVal(ns, disk, s) in gone then 0 else SlotVal(ns, disk, s))
    ensures SlotsOwn(sb, ns', disk', owner - gone) && MapExact(sb, disk', owner - gone)
  {
    hide SlotVal, InUse;
  }

  /** Emptying a direct slot of inode n. */
  lemma UnlinkDirect(sb: Super, ns: seq<Inode>, disk: Disk, owner: map<nat, Slot>, n: nat, i: nat)
    requires OwnInv(sb, ns, disk, owner) && n < |ns| && i < NDIRECT && ns[n].addrs[i] != 0
    ensures var b := ns[n].addrs[i];
            && b < sb.size && InUse(sb, disk, b) && BBlock(sb, b) < |disk| && b in owner && owner[b] == Direct(n, i)
            && OwnInv(sb, SetAddr(ns, n, i, 0), WithBitAt(sb, disk, b, false), owner - {b})
            && forall c | sb.nmeta <= c < |disk| :: WithBitAt(sb, disk, b, false)[c] == disk[c]
  {
    hide InUse, WithBitAt, IndWord;
    var b := ns[n].addrs[i];
    assert ValidSlot(|ns|, Direct(n, i)) && SlotVal(ns, disk, Direct(n, i)) == b;
    assert MapExactBut(sb, disk, owner, {});
    FreeBit(sb, ns, disk, owner, {}, b);
    assert {} + {b} == {b};
    var ns', disk' := SetAddr(ns, n, i, 0), WithBitAt(sb, disk, b, false);
    forall s | ValidSlot(|ns|, s)
      ensures SlotVal(ns', disk', s) == (if SlotVal(ns, disk, s) in {b} then 0 else SlotVal(ns, disk, s))
    {
      assert SlotVal(ns, disk', s) == SlotVal(ns, disk, s);
    }
    OwnRemove(sb, ns, disk, owner, ns', disk', {b});
  }

  /** The blocks that the first k indirect entries of inode n name. */
  ghost function EntryBlocks(ns: seq<Inode>, disk: Disk, n: nat, k: nat): set<nat>
    requires n < |ns| && k <= NINDIRECT
  {
    set j | 0 <= j < k && SlotVal(ns, disk, Entry(n, j)) != 0 :: SlotVal(ns, disk, Entry(n, j))
  }

  /** Emptying the indirect pointer of inode n once its entries and the indirect block itself are free. */
  lemma UnlinkIndirect(sb: Super, ns: seq<Inode>, disk: Disk, owner: map<nat, Slot>, disk': Disk, n: nat)
    requires OwnInv(sb, ns, disk, owner) && n < |ns| && ns[n].addrs[NDIRECT] != 0 && |disk'| == |disk|
    requires forall s | ValidSlot(|ns|, s) :: SlotVal(ns, disk', s) == SlotVal(ns, disk, s)
    requires MapExactBut(sb, disk', owner, EntryBlocks(ns, disk, n, NINDIRECT) + {ns[n].addrs[NDIRECT]})
    ensures OwnInv(sb, SetAddr(ns, n, NDIRECT, 0), disk',
                   owner - (EntryBlocks(ns, disk, n, NINDIRECT) + {ns[n].addrs[NDIRECT]}))
  {
    hide InUse, GetWord;
    var a := ns[n].addrs[NDIRECT];
    var gone := EntryBlocks(ns, disk, n, NINDIRECT) + {a};
    var ns' := SetAddr(ns, n, NDIRECT, 0);
    assert SlotVal(ns, disk, IndPtr(n)) == a && owner[a] == IndPtr(n);
    forall s | ValidSlot(|ns|, s)
      ensures SlotVal(ns', disk', s) == (if SlotVal(ns, disk, s) in gone then 0 else SlotVal(ns, disk, s))
    {
      assert SlotVal(ns, disk', s) == SlotVal(ns, disk, s);
      GoneIsIndirect(sb, ns, disk, owner, n, s);
    }
    OwnRemove(sb, ns, disk, owner, ns', disk', gone);
  }

  lemma GoneIsIndirect(sb: Super, ns: seq<Inode>, disk: Disk, owner: map<nat, Slot>, n: nat, s: Slot)
    requires SlotsOwn(sb, ns, disk, owner) && n < |ns| && ns[n].addrs[NDIRECT] != 0 && ValidSlot(|ns|, s)
    ensures SlotVal(ns, disk, s) != 0 ==>
              (SlotVal(ns, disk, s) in EntryBlocks(ns, disk, n, NINDIRECT) + {ns[n].addrs[NDIRECT]}
               <==> s == IndPtr(n) || (s.Entry? && s.inum == n))
  {
    hide IndWord;
    var v := SlotVal(ns, disk, s);
    if v != 0 {
      assert owner[v] == s;
      if v in EntryBlocks(ns, disk, n, NINDIRECT) {
        var j :| 0 <= j < NINDIRECT && SlotVal(ns, disk, Entry(n, j)) == v;
        assert owner[SlotVal(ns, disk, Entry(n, j))] == Entry(n, j);
      }
      if v == ns[n].addrs[NDIRECT] {
        assert owner[SlotVal(ns, disk, IndPtr(n))] == IndPtr(n);
      }
    }
  }
}

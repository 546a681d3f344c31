/** The page allocator of kalloc.c and the address space operations of vm.c. */
module Vm {
  import opened Common
  import opened PageTables

  const PGSIZE: nat := 4096
  const KERNBASE: nat := 0x8000_0000
  const PHYSTOP: nat := 0xE00_0000
  const PHYSPAGES: nat := 0xE000
  const EXTMEM: nat := 0x10_0000
  const DEVSPACE: nat := 0xFE00_0000

  function PgRoundUp(a: nat): nat {
    (a + PGSIZE - 1) % UINT_LIMIT / PGSIZE * PGSIZE
  }

  /** `PGADDR(PDX(a) + 1, 0, 0) - PGSIZE`. */
  function SkipTo(a: nat): nat {
    ((a / PGSIZE / NENTRIES + 1) * (NENTRIES * PGSIZE) % UINT_LIMIT - PGSIZE + UINT_LIMIT) % UINT_LIMIT
  }

  /** The number of pages that reach up to byte a. */
  function Pages(a: nat): nat {
    (a + PGSIZE - 1) / PGSIZE
  }

  /** `perm | PTE_P`. */
  function WithP(perm: nat): nat {
    if perm % 2 == 1 then perm else perm + 1
  }

  // ---------- the kernel's part of an address space ----------

  /** A row of the table of kernel mappings, in bytes. */
  datatype Kmap = Kmap(virt: nat, start: nat, stop: nat, perm: nat) {
    function Size(): nat {
      (stop - start + UINT_LIMIT) % UINT_LIMIT
    }

    predicate Covers(v: nat) {
      virt / PGSIZE <= v < virt / PGSIZE + Pages(Size())
    }

    function At(v: nat): Entry
      requires Covers(v)
    {
      Entry(start / PGSIZE + v - virt / PGSIZE, WithP(perm))
    }
  }

  /** Where the linker may put the kernel's writable data: on a page, above the kernel's text. */
  predicate KernelData(data: nat) {
    EXTMEM < data < PHYSTOP && data % PGSIZE == 0
  }

  function KernelMap(data: nat): (rows: seq<Kmap>)
    ensures |rows| == 4
  {
    [ Kmap(KERNBASE, 0, EXTMEM, PTE_W),
      Kmap(KERNBASE + EXTMEM, EXTMEM, data, 0),
      Kmap(KERNBASE + data, data, PHYSTOP, PTE_W),
      Kmap(DEVSPACE, DEVSPACE, 0, PTE_W) ]
  }

  /** The entry of page v once the first k rows are mapped. */
  function RowsPte(data: nat, k: nat, v: nat): Entry
    requires k <= 4
  {
    if k == 0 then NO_ENTRY
    else if KernelMap(data)[k - 1].Covers(v) then KernelMap(data)[k - 1].At(v)
    else RowsPte(data, k - 1, v)
  }

  /** The kernel part of every address space. */
  function KernelPte(data: nat, v: nat): Entry {
    if v < KERNVPN then NO_ENTRY
    else if v < KERNVPN + PHYSPAGES then
      Entry(v - KERNVPN, if EXTMEM / PGSIZE <= v - KERNVPN < data / PGSIZE then PTE_P else PTE_P + PTE_W)
    else if v < DEVSPACE / PGSIZE then NO_ENTRY
    else if v < NVPAGES then Entry(v, PTE_P + PTE_W)
    else NO_ENTRY
  }

  /** The four rows together map physical memory and the devices, text read-only, and nothing below KERNBASE. */
  lemma RowsAreKernel(data: nat, v: nat)
    requires KernelData(data)
    ensures RowsPte(data, 4, v) == KernelPte(data, v)
  {
    var rows := KernelMap(data);
    assert RowsPte(data, 4, v) == if rows[3].Covers(v) then rows[3].At(v) else RowsPte(data, 3, v);
    assert RowsPte(data, 3, v) == if rows[2].Covers(v) then rows[2].At(v) else RowsPte(data, 2, v);
    assert RowsPte(data, 2, v) == if rows[1].Covers(v) then rows[1].At(v) else RowsPte(data, 1, v);
    assert RowsPte(data, 1, v) == if rows[0].Covers(v) then rows[0].At(v) else NO_ENTRY;
  }

  /** What a process may do with the kernel part of its address space: read physical memory and the devices, and write
      all but the kernel's text, in kernel mode only. */
  function KernelAccess(data: nat, v: nat): Access {
    if KERNVPN <= v < KERNVPN + PHYSPAGES then
      Access(true, !(EXTMEM / PGSIZE <= v - KERNVPN < data / PGSIZE), false)
    else if DEVSPACE / PGSIZE <= v < NVPAGES then Access(true, true, false)
    else NO_ACCESS
  }

  lemma KernelAccessIs(lo: nat, mem: Memory, dirs: set<int>, owner: map<int, Role>, d: int, data: nat)
    requires d in dirs && forall v | 0 <= v < NVPAGES :: Pte(mem, d, v) == KernelPte(data, v)
    requires Owned(lo, mem, dirs, owner) && Open(mem, dirs)
    ensures forall v | 0 <= v < NVPAGES :: AccessOf(mem, d, v) == KernelAccess(data, v)
  {
    hide Owned, Open, Pte, AccessOf;
    forall v | 0 <= v < NVPAGES
      ensures AccessOf(mem, d, v) == KernelAccess(data, v)
    {
      AccessIsPte(lo, mem, dirs, owner, d, v);
    }
  }

  /** Each row is a whole number of pages above KERNBASE, apart from the rows before it. */
  lemma RowFacts(data: nat, k: nat)
    requires KernelData(data) && k < 4
    ensures var r := KernelMap(data)[k];
            && 0 < r.Size() && r.virt + r.Size() <= UINT_LIMIT && r.virt % PGSIZE == 0 && r.start % PGSIZE == 0
            && KERNVPN <= r.virt / PGSIZE
            && r.virt / PGSIZE + Pages(r.Size()) <= NVPAGES
    ensures forall v | KernelMap(data)[k].Covers(v) :: RowsPte(data, k, v) == NO_ENTRY
  {
    forall v | KernelMap(data)[k].Covers(v)
      ensures RowsPte(data, k, v) == NO_ENTRY
    {
      RowsApart(data, k, k, v);
    }
  }

  lemma RowsApart(data: nat, k: nat, j: nat, v: nat)
    requires KernelData(data) && j <= k < 4 && KernelMap(data)[k].Covers(v)
    ensures RowsPte(data, j, v) == NO_ENTRY
  {
    if j > 0 {
      assert !KernelMap(data)[j - 1].Covers(v);
      RowsApart(data, k, j - 1, v);
    }
  }

  // ---------- what operations keep ----------

  ghost predicate SamePtes(mem0: Memory, mem: Memory, dirs: set<int>) {
    forall c, v | c in dirs && 0 <= v < NVPAGES :: Pte(mem, c, v) == Pte(mem0, c, v)
  }

  predicate Plain(r: Role) {
    r.User? || r.Held?
  }

  /** The contents of user pages and of pages held by other parts of the kernel. */
  ghost predicate DataKept(mem0: Memory, owner: map<int, Role>, mem: Memory) {
    |mem| == |mem0| && forall p | p in owner && 0 <= p < |mem0| && Plain(owner[p]) :: mem[p] == mem0[p]
  }

  /** Owners are kept; new ones are tables of d. */
  ghost predicate MoreTables(owner0: map<int, Role>, owner: map<int, Role>, d: int) {
    && (forall p | p in owner0 :: p in owner && owner[p] == owner0[p])
    && (forall p | p in owner && p !in owner0 :: owner[p].Table? && owner[p].d == d)
  }

  // ---------- mapping pages ----------

  datatype MapResult = Mapped | NoMemory | Remap

  /** The entry of page v of c once n pages from a on are mapped in d. */
  function PteAfter(before: Entry, c: int, v: nat, d: int, a: nat, n: nat, pa: nat, flags: nat): Entry {
    if c == d && a <= v < a + n then Entry(pa + v - a, flags) else before
  }

  /** The role of page p, which was r, once n pages from a on are mapped in d. */
  function RoleAfter(r: Role, p: int, d: int, a: nat, n: nat, pa: nat): Role {
    if r == Held && pa <= p < pa + n && a + (p - pa) < KERNVPN then User(d, a + (p - pa)) else r
  }

  /** The user pages about to be mapped are held. */
  ghost predicate RangeHeld(owner: map<int, Role>, a: nat, n: nat, pa: nat) {
    forall i | pa <= i < pa + n && a + (i - pa) < KERNVPN :: i in owner && owner[i] == Held
  }

  ghost predicate PtesAfter(mem0: Memory, mem: Memory, dirs: set<int>, d: int, a: nat, n: nat, pa: nat, flags: nat) {
    forall c, v | c in dirs && 0 <= v < NVPAGES ::
      Pte(mem, c, v) == PteAfter(Pte(mem0, c, v), c, v, d, a, n, pa, flags)
  }

  ghost predicate OwnersAfter(owner0: map<int, Role>, owner: map<int, Role>, d: int, a: nat, n: nat, pa: nat) {
    && (forall p | p in owner0 :: p in owner && owner[p] == RoleAfter(owner0[p], p, d, a, n, pa))
    && (forall p | p in owner && p !in owner0 :: owner[p].Table? && owner[p].d == d)
  }

  /** n pages from a on have been mapped in d; new owners are tables of d. */
  ghost predicate MapProgress(mem0: Memory, owner0: map<int, Role>, mem: Memory, owner: map<int, Role>, dirs: set<int>,
                              d: int, a: nat, n: nat, pa: nat, flags: nat) {
    && PtesAfter(mem0, mem, dirs, d, a, n, pa, flags)
    && OwnersAfter(owner0, owner, d, a, n, pa)
    && DataKept(mem0, owner0, mem)
  }

  lemma MapStart(mem: Memory, owner: map<int, Role>, dirs: set<int>, d: int, a: nat, pa: nat, flags: nat)
    ensures MapProgress(mem, owner, mem, owner, dirs, d, a, 0, pa, flags)
  {
  }

  lemma MapStep(mem0: Memory, owner0: map<int, Role>, mem1: Memory, owner1: map<int, Role>, mem: Memory,
                owner: map<int, Role>,
                dirs: set<int>, d: int, a: nat, n: nat, pa: nat, flags: nat)
    requires MapProgress(mem0, owner0, mem1, owner1, dirs, d, a, n, pa, flags)
    requires MapProgress(mem1, owner1, mem, owner, dirs, d, a + n, 1, pa + n, flags)
    ensures MapProgress(mem0, owner0, mem, owner, dirs, d, a, n + 1, pa, flags)
  {
    hide Pte;
  }

  lemma RangeNext(owner0: map<int, Role>, owner: map<int, Role>, d: int, a: nat, n: nat, m: nat, pa: nat)
    requires n < m && RangeHeld(owner0, a, m, pa) && OwnersAfter(owner0, owner, d, a, n, pa)
    ensures RangeHeld(owner, a + n, 1, pa + n)
  {
  }

  /** A page that held no mapping, or whose mapping is absent, takes the entry e. */
  lemma MapOneProgress(lo: nat, mem: Memory, owner: map<int, Role>, dirs: set<int>, d: int, v: nat, e: Entry, m: Memory)
    requires Owned(lo, mem, dirs, owner) && d in dirs && v < NVPAGES && TableOf(mem, dirs, d, v / NENTRIES) != NONE
    requires !Present(Pte(mem, d, v)) && Present(e) && RangeHeld(owner, v, 1, e.frame)
    requires 0 <= TableOf(mem, dirs, d, v / NENTRIES) < |mem|
    requires m == PutEntry(mem, TableOf(mem, dirs, d, v / NENTRIES), v % NENTRIES, e)
    ensures v < KERNVPN ==> e.frame in owner && owner[e.frame] == Held
    ensures Owned(lo, m, dirs, if v < KERNVPN then owner[e.frame := User(d, v)] else owner)
    ensures MapProgress(mem, owner, m, if v < KERNVPN then owner[e.frame := User(d, v)] else owner, dirs, d, v, 1,
              e.frame, e.flags)
  {
    hide Owned, Pte, Occupant;
    var i, j := v / NENTRIES, v % NENTRIES;
    TableWrite(lo, mem, dirs, owner, d, i, j, e);
    TableOwned(lo, mem, dirs, owner, d, i);
    assert i * NENTRIES + j == v;
    if v < KERNVPN {
      MapUser(lo, mem, dirs, owner, d, v, e);
    } else {
      OwnedFrame(lo, mem, m, dirs, owner);
    }
  }

  // ---------- the page-by-page meaning of unmapping ----------

  datatype Store = Store(mem: Memory, free: seq<int>)

  /** One page unmapped and freed, if it is mapped. */
  function UnmapOne(s: Store, d: int, v: nat): Store
    requires v < NVPAGES
  {
    var e := Pte(s.mem, d, v);
    if 0 <= d < |s.mem| && Present(e) && e.frame < |s.mem| then
      var t := Frame(s.mem[d].words[v / NENTRIES]);
      Store(PutEntry(s.mem[e.frame := JunkPage()], t, v % NENTRIES, NO_ENTRY), [e.frame] + s.free)
    else s
  }

  /** Pages v up to hi unmapped one after the other. */
  function UnmapRange(s: Store, d: int, v: nat, hi: nat): Store
    requires hi <= NVPAGES
    decreases hi - v
  {
    if v >= hi then s else UnmapRange(UnmapOne(s, d, v), d, v + 1, hi)
  }

  /** Pages without a table are passed over. */
  lemma {:induction false} SkipAbsent(s: Store, d: int, v: nat, w: nat, hi: nat)
    requires v <= w && v <= hi <= NVPAGES && w / NENTRIES <= NVPAGES / NENTRIES
    requires 0 <= d < |s.mem| && forall u | v <= u < w && u < hi :: !Present(s.mem[d].words[u / NENTRIES])
    ensures UnmapRange(s, d, v, hi) == UnmapRange(s, d, w, hi)
    decreases hi - v
  {
    if v < w && v < hi {
      assert Pte(s.mem, d, v) == NO_ENTRY;
      SkipAbsent(s, d, v + 1, w, hi);
    }
  }

  predicate UserIn(r: Role, d: int, lo: nat, hi: nat) {
    r.User? && r.d == d && lo <= r.v < hi
  }

  /** User pages lo up to hi of d are unmapped and free; everything else is as it was. */
  ghost predicate Unmapped(mem0: Memory, owner0: map<int, Role>, mem: Memory, owner: map<int, Role>, dirs: set<int>,
                           d: int, lo: nat, hi: nat) {
    && PtesCleared(mem0, mem, dirs, d, lo, hi)
    && (forall p | p in owner :: p in owner0 && owner[p] == owner0[p] && !UserIn(owner0[p], d, lo, hi))
    && (forall p | p in owner0 && !UserIn(owner0[p], d, lo, hi) :: p in owner)
    && DataKept(mem0, owner, mem)
  }

  ghost predicate PtesCleared(mem0: Memory, mem: Memory, dirs: set<int>, d: int, lo: nat, hi: nat) {
    && (forall c, v | c in dirs && 0 <= v < NVPAGES && !(c == d && lo <= v < hi) :: Pte(mem, c, v) == Pte(mem0, c, v))
    && (forall v | lo <= v < hi && v < NVPAGES :: !Present(Pte(mem, d, v)))
  }

  lemma UnmapTrans(mem0: Memory, owner0: map<int, Role>, mem1: Memory, owner1: map<int, Role>, mem: Memory,
                   owner: map<int, Role>,
                   dirs: set<int>, d: int, a: nat, b: nat, c: nat)
    requires d in dirs && a <= b <= c
    requires Unmapped(mem0, owner0, mem1, owner1, dirs, d, a, b) && Unmapped(mem1, owner1, mem, owner, dirs, d, b, c)
    ensures Unmapped(mem0, owner0, mem, owner, dirs, d, a, c)
  {
    hide Pte;
  }

  lemma UnmapNothing(lo: nat, mem: Memory, owner: map<int, Role>, dirs: set<int>, d: int, a: nat, b: nat)
    requires Owned(lo, mem, dirs, owner) && d in dirs && b <= KERNVPN
    requires forall v | a <= v < b :: !Present(Pte(mem, d, v))
    ensures Unmapped(mem, owner, mem, owner, dirs, d, a, b)
  {
    hide Pte, Owned;
    forall p | p in owner
      ensures !UserIn(owner[p], d, a, b)
    {
      if owner[p].User? && owner[p].d == d && a <= owner[p].v < b {
        OwnedUser(lo, mem, dirs, owner, p);
      }
    }
  }

  lemma OwnedUser(lo: nat, mem: Memory, dirs: set<int>, owner: map<int, Role>, p: int)
    requires Owned(lo, mem, dirs, owner) && p in owner && owner[p].User?
    ensures ValidRole(owner[p]) && owner[p].d in dirs && Frame(Pte(mem, owner[p].d, owner[p].v)) == p && lo <= p < |mem|
  {
    assert ValidRole(owner[p]) && Occupant(mem, dirs, owner[p]) == p;
  }

  /** Unmapping and freeing one mapped user page. */
  lemma UnmapFree(lo: nat, mem: Memory, free: seq<int>, owner: map<int, Role>, dirs: set<int>, d: int, v: nat, p: int)
    requires d in dirs && v < KERNVPN && Present(Pte(mem, d, v)) && p == Pte(mem, d, v).frame
    requires Owned(lo, mem, dirs, owner) && Conserved(lo, mem, free, owner)
    ensures p in owner && owner[p] == User(d, v) && lo <= p < |mem|
    ensures UnmapOne(Store(mem, free), d, v).free == [p] + free
    ensures Owned(lo, UnmapOne(Store(mem, free), d, v).mem, dirs, owner - {p})
    ensures Conserved(lo, UnmapOne(Store(mem, free), d, v).mem, [p] + free, owner - {p})
    ensures Unmapped(mem, owner, UnmapOne(Store(mem, free), d, v).mem, owner - {p}, dirs, d, v, v + 1)
  {
    hide Owned, Conserved, Pte, Occupant;
    UserIsPte(mem, dirs, d, v);
    DirOwned(lo, mem, dirs, owner, d);
    UnmapUser(lo, mem, dirs, owner, d, v);
    var i, j := v / NENTRIES, v % NENTRIES;
    var t := TableOf(mem, dirs, d, i);
    TableOwned(lo, mem, dirs, owner, d, i);
    TableWrite(lo, mem, dirs, owner, d, i, j, NO_ENTRY);
    assert i * NENTRIES + j == v;
    var m := PutEntry(mem, t, j, NO_ENTRY);
    HoldConserved(lo, mem, m, free, owner, p);
    Give(lo, m, dirs, free, owner[p := Held], p);
    assert m[p := JunkPage()] == UnmapOne(Store(mem, free), d, v).mem;
    assert owner[p := Held] - {p} == owner - {p};
    UnmapFreePages(lo, mem, owner, dirs, d, v, p, t);
  }

  lemma HoldConserved(lo: nat, mem: Memory, mem': Memory, free: seq<int>, owner: map<int, Role>, p: int)
    requires Conserved(lo, mem, free, owner) && |mem'| == |mem| && p in owner
    ensures Conserved(lo, mem', free, owner[p := Held])
  {
  }

  lemma UnmapFreePages(lo: nat, mem: Memory, owner: map<int, Role>, dirs: set<int>, d: int, v: nat, p: int, t: int)
    requires Owned(lo, mem, dirs, owner) && d in dirs && v < KERNVPN
    requires p in owner && owner[p] == User(d, v) && t in owner && owner[t].Table? && 0 <= t < |mem| && 0 <= p < |mem|
    ensures forall q | q in owner - {p} :: !UserIn(owner[q], d, v, v + 1)
    ensures DataKept(mem, owner - {p}, PutEntry(mem, t, v % NENTRIES, NO_ENTRY)[p := JunkPage()])
  {
    hide Owned, Pte;
    OwnedUser(lo, mem, dirs, owner, p);
    forall q | q in owner && q != p
      ensures owner[q] != User(d, v)
    {
      if owner[q] == User(d, v) {
        OwnedUser(lo, mem, dirs, owner, q);
      }
    }
  }

  /** Pages a up to b are no longer owned. */
  ghost predicate Freed(owner0: map<int, Role>, owner: map<int, Role>, a: nat, b: nat) {
    && (forall p | p in owner :: p in owner0 && owner[p] == owner0[p] && !(a <= p < b))
    && (forall p | p in owner0 && !(a <= p < b) :: p in owner)
  }

  ghost function AllHeld(a: nat, b: nat): (m: map<int, Role>)
    ensures forall p | p in m :: a <= p < b && m[p] == Held
    ensures forall p | a <= p < b :: p in m
    decreases b - a
  {
    if a >= b then map[] else AllHeld(a + 1, b)[a := Held]
  }

  // ---------- what memory an operation takes ----------

  /** The pages of an address space without user pages: a directory and the tables of the kernel part. */
  const KERNEL_PAGES: nat := 65

  /** The regions for which directory d has a table. */
  ghost function Tables(mem: Memory, d: int): set<int> {
    set i | 0 <= i < NENTRIES && 0 <= d < |mem| && Present(mem[d].words[i])
  }

  /** The regions that n pages from page a on lie in. */
  function Regions(a: nat, n: nat): set<int> {
    if n == 0 then {} else Regions(a, n - 1) + {(a + n - 1) / NENTRIES}
  }

  /** Directory d has got the tables `made`, and the pages off the free list went into those it lacked and k others. */
  ghost predicate Spent(mem0: Memory, free0: seq<int>, mem: Memory, free: seq<int>, d: int, made: set<int>, k: nat) {
    Tables(mem, d) == Tables(mem0, d) + made && |free0| == |free| + k + |made - Tables(mem0, d)|
  }

  lemma SpentNothing(mem: Memory, free: seq<int>, d: int)
    ensures Spent(mem, free, mem, free, d, {}, 0)
  {
    assert {} - Tables(mem, d) == {};
  }

  lemma SpentStart(mem: Memory, free: seq<int>, d: int, a: nat)
    ensures Spent(mem, free, mem, free, d, Regions(a, 0), 0)
  {
    SpentNothing(mem, free, d);
  }

  /** One more page of a range has its table. */
  lemma SpentNext(mem0: Memory, free0: seq<int>, mem1: Memory, free1: seq<int>, mem: Memory, free: seq<int>, d: int,
                  a: nat, n: nat, v: nat)
    requires Spent(mem0, free0, mem1, free1, d, Regions(a, n), 0) && Spent(mem1, free1, mem, free, d, {v / NENTRIES}, 0)
    requires v == a + n
    ensures Spent(mem0, free0, mem, free, d, Regions(a, n + 1), 0)
  {
    hide Spent;
    assert Regions(a, n + 1) == Regions(a, n) + {v / NENTRIES};
    SpentTwice(mem0, free0, mem1, free1, mem, free, d, Regions(a, n), 0, {v / NENTRIES}, 0);
  }

  lemma SpentTwice(mem0: Memory, free0: seq<int>, mem1: Memory, free1: seq<int>, mem: Memory, free: seq<int>, d: int,
                   a: set<int>, k: nat, b: set<int>, m: nat)
    requires Spent(mem0, free0, mem1, free1, d, a, k) && Spent(mem1, free1, mem, free, d, b, m)
    ensures Spent(mem0, free0, mem, free, d, a + b, k + m)
  {
    hide Tables;
    var t := Tables(mem0, d);
    assert (a + b) - t == (a - t) + (b - (t + a)) && (a - t) !! (b - (t + a));
  }

  lemma SpentElsewhere(mem0: Memory, free0: seq<int>, mem: Memory, free: seq<int>, d: int, made: set<int>, k: nat,
                       p: int, x: Page)
    requires Spent(mem0, free0, mem, free, d, made, k) && 0 <= p < |mem| && p != d
    ensures Spent(mem0, free0, mem[p := x], free, d, made, k)
  {
    assert Tables(mem[p := x], d) == Tables(mem, d);
  }

  lemma SpentLink(mem: Memory, free: seq<int>, d: int, i: nat, t: int, e: Entry)
    requires free != [] && 0 <= d < |mem| && 0 <= t < |mem| && t != d && i < NENTRIES && Present(e)
    requires !Present(mem[d].words[i])
    ensures Spent(mem, free, PutEntry(mem[t := ZeroPage()], d, i, e), free[1..], d, {i}, 0)
  {
    assert Tables(PutEntry(mem[t := ZeroPage()], d, i, e), d) == Tables(mem, d) + {i};
    assert {i} - Tables(mem, d) == {i};
  }

  lemma SpentThere(mem: Memory, free: seq<int>, d: int, i: nat)
    requires 0 <= d < |mem| && i < NENTRIES && Present(mem[d].words[i])
    ensures Spent(mem, free, mem, free, d, {i}, 0)
  {
    assert Tables(mem, d) == Tables(mem, d) + {i} && {i} - Tables(mem, d) == {};
  }

  /** The free pages that the pages from a up to b take, their tables included. */
  ghost function Growth(mem: Memory, d: int, a: nat, b: nat): nat
    requires a <= b
  {
    b - a + |Regions(a, b - a) - Tables(mem, d)|
  }

  /** Page v of a growth from a: a page off the free list, filled, and mapped. */
  lemma SpentPage(mem0: Memory, free0: seq<int>, mem1: Memory, free1: seq<int>, mem2: Memory, mem: Memory,
                  free: seq<int>, d: int, a: nat, v: nat)
    requires a <= v && free1 != [] && Spent(mem0, free0, mem1, free1, d, Regions(a, v - a), v - a)
    requires Tables(mem2, d) == Tables(mem1, d) && Spent(mem2, free1[1..], mem, free, d, Regions(v, 1), 0)
    ensures Spent(mem0, free0, mem, free, d, Regions(a, v + 1 - a), v + 1 - a)
  {
    hide Tables;
    assert Regions(v, 1) == {v / NENTRIES};
    assert Regions(a, v + 1 - a) == Regions(a, v - a) + {v / NENTRIES};
    assert Spent(mem1, free1, mem, free, d, Regions(v, 1), 1);
    SpentTwice(mem0, free0, mem1, free1, mem, free, d, Regions(a, v - a), v - a, Regions(v, 1), 1);
  }

  lemma GrowthPaid(mem0: Memory, free0: seq<int>, mem: Memory, free: seq<int>, d: int, a: nat, b: nat)
    requires a <= b && Spent(mem0, free0, mem, free, d, Regions(a, b - a), b - a)
    ensures Growth(mem0, d, a, b) == |free0| - |free|
  {
    hide Tables, Regions;
  }

  /** No page for page v of the growth. */
  lemma NoPage(mem0: Memory, free0: seq<int>, mem: Memory, d: int, a: nat, v: nat, b: nat)
    requires a <= v < b && Spent(mem0, free0, mem, [], d, Regions(a, v - a), v - a)
    ensures |free0| < Growth(mem0, d, a, b)
  {
    hide Tables, Regions;
    RegionsMore(a, v - a, b - a);
    Fewer(Regions(a, v - a) - Tables(mem0, d), Regions(a, b - a) - Tables(mem0, d));
  }

  /** No page for the table of page v of the growth. */
  lemma NoTable(mem0: Memory, free0: seq<int>, mem1: Memory, free1: seq<int>, mem2: Memory, d: int, a: nat, v: nat,
                b: nat)
    requires a <= v < b && |free1| == 1 && Spent(mem0, free0, mem1, free1, d, Regions(a, v - a), v - a)
    requires Tables(mem2, d) == Tables(mem1, d) && v / NENTRIES !in Tables(mem2, d)
    ensures |free0| < Growth(mem0, d, a, b)
  {
    hide Tables, Regions;
    assert Spent(mem0, free0, mem1, [], d, Regions(a, v - a), v - a + 1);
    RegionsMore(a, v - a, b - a);
    TooLittle(mem0, free0, mem1, d, Regions(a, v - a), v - a + 1, Regions(a, b - a), v / NENTRIES);
  }

  lemma TablesElsewhere(mem: Memory, d: int, p: int, x: Page)
    requires 0 <= p < |mem| && p != d
    ensures Tables(mem[p := x], d) == Tables(mem, d)
  {
  }

  /** With no page left and a table still lacking, there was too little for all of it. */
  lemma TooLittle(mem0: Memory, free0: seq<int>, mem: Memory, d: int, made: set<int>, k: nat, all: set<int>, i: int)
    requires Spent(mem0, free0, mem, [], d, made, k) && made <= all && i in all && i !in Tables(mem, d)
    ensures |free0| < k + |all - Tables(mem0, d)|
  {
    hide Tables;
    var t := Tables(mem0, d);
    assert (made - t) + {i} <= all - t && i !in made - t;
    Fewer((made - t) + {i}, all - t);
  }

  lemma Fewer(a: set<int>, b: set<int>)
    requires a <= b
    ensures |a| <= |b|
  {
    assert b == a + (b - a);
  }

  lemma {:induction false} RegionsIn(a: nat, n: nat, i: int)
    ensures i in Regions(a, n) <==> n > 0 && a / NENTRIES <= i <= (a + n - 1) / NENTRIES
  {
    if n > 1 {
      RegionsIn(a, n - 1, i);
      assert (a + n - 2) / NENTRIES <= (a + n - 1) / NENTRIES <= (a + n - 2) / NENTRIES + 1;
    } else if n == 1 {
      assert Regions(a, 0) == {};
    }
  }

  lemma {:induction false} RegionsMore(a: nat, n: nat, m: nat)
    requires n <= m
    ensures Regions(a, n) <= Regions(a, m) && (n < m ==> (a + n) / NENTRIES in Regions(a, m))
    decreases m
  {
    if n < m {
      RegionsMore(a, n, m - 1);
    }
  }

  lemma {:induction false} RegionsJoin(a: nat, n: nat, m: nat)
    ensures Regions(a, n) + Regions(a + n, m) == Regions(a, n + m)
    decreases m
  {
    if m > 0 {
      RegionsJoin(a, n, m - 1);
    }
  }

  /** Pages that start a region need a table for every 1024 of them. */
  lemma {:induction false} RegionsCount(a: nat, n: nat)
    requires a % NENTRIES == 0
    ensures |Regions(a, n)| == (n + NENTRIES - 1) / NENTRIES
  {
    if n > 0 {
      RegionsCount(a, n - 1);
      var i := (a + n - 1) / NENTRIES;
      RegionsIn(a, n - 1, i);
      LastRegion(a / NENTRIES, n);
      if i in Regions(a, n - 1) {
        assert Regions(a, n) == Regions(a, n - 1);
      }
    }
  }

  /** The regions of the first k rows of the kernel's table. */
  function RowRegions(data: nat, k: nat): set<int>
    requires k <= 4
  {
    if k == 0 then {}
    else var row := KernelMap(data)[k - 1];
         RowRegions(data, k - 1) + Regions(row.virt / PGSIZE, Pages(row.Size()))
  }

  lemma {:induction false} MoreRows(data: nat, j: nat, k: nat)
    requires j <= k <= 4
    ensures RowRegions(data, j) <= RowRegions(data, k)
    decreases k
  {
    hide Regions, KernelMap;
    if j < k {
      MoreRows(data, j, k - 1);
    }
  }

  /** Physical memory takes 56 tables and the devices take 8, all above KERNBASE. */
  lemma KernelRegions(data: nat)
    requires KernelData(data)
    ensures |RowRegions(data, 4)| == KERNEL_PAGES - 1
    ensures forall i | i in RowRegions(data, 4) :: KERNVPN / NENTRIES <= i
  {
    hide Regions;
    RowsJoin(data);
    var low, high := Regions(KERNVPN, PHYSPAGES), Regions(DEVSPACE / PGSIZE, 0x2000);
    RegionsCount(KERNVPN, PHYSPAGES);
    RegionsCount(DEVSPACE / PGSIZE, 0x2000);
    forall i | i in low + high
      ensures KERNVPN / NENTRIES <= i && !(i in low && i in high)
    {
      RegionsIn(KERNVPN, PHYSPAGES, i);
      RegionsIn(DEVSPACE / PGSIZE, 0x2000, i);
    }
    assert low !! high;
  }

  lemma RowsJoin(data: nat)
    requires KernelData(data)
    ensures RowRegions(data, 4) == Regions(KERNVPN, PHYSPAGES) + Regions(DEVSPACE / PGSIZE, 0x2000)
  {
    hide Regions;
    var e, m := EXTMEM / PGSIZE, data / PGSIZE;
    var rows := KernelMap(data);
    assert RowRegions(data, 1) == Regions(KERNVPN, e) by { assert RowRegions(data, 0) == {}; }
    assert RowRegions(data, 2) == RowRegions(data, 1) + Regions(KERNVPN + e, m - e);
    RegionsJoin(KERNVPN, e, m - e);
    assert RowRegions(data, 3) == RowRegions(data, 2) + Regions(KERNVPN + m, PHYSPAGES - m);
    RegionsJoin(KERNVPN, m, PHYSPAGES - m);
    assert RowRegions(data, 4) == RowRegions(data, 3) + Regions(DEVSPACE / PGSIZE, 0x2000);
  }

  /** A new directory has no table. */
  lemma NoTables(mem: Memory, d: int)
    requires 0 <= d < |mem|
    ensures Tables(mem[d := ZeroPage()], d) == {}
  {
  }

  lemma SpentNoRow(mem: Memory, free: seq<int>, d: int, data: nat)
    ensures Spent(mem, free, mem, free, d, RowRegions(data, 0), 0)
  {
    SpentNothing(mem, free, d);
  }

  /** One more row of the kernel part. */
  lemma SpentRow(data: nat, k: nat, mem0: Memory, free0: seq<int>, mem1: Memory, free1: seq<int>, mem: Memory,
                 free: seq<int>, d: int, n: nat)
    requires KernelData(data) && k < 4 && Spent(mem0, free0, mem1, free1, d, RowRegions(data, k), 0)
    requires var row := KernelMap(data)[k];
             n == Pages(row.Size()) && Spent(mem1, free1, mem, free, d, Regions(row.virt / PGSIZE, n), 0)
    ensures Spent(mem0, free0, mem, free, d, RowRegions(data, k + 1), 0)
  {
    hide Spent, Regions, KernelMap;
    var more := Regions(KernelMap(data)[k].virt / PGSIZE, n);
    SpentTwice(mem0, free0, mem1, free1, mem, free, d, RowRegions(data, k), 0, more, 0);
  }

  /** No page for a table of row k. */
  lemma NoRow(data: nat, k: nat, mem0: Memory, free0: seq<int>, mem1: Memory, free1: seq<int>, mem: Memory, d: int,
              n: nat)
    requires KernelData(data) && k < 4 && Tables(mem0, d) == {}
    requires Spent(mem0, free0, mem1, free1, d, RowRegions(data, k), 0)
    requires var row := KernelMap(data)[k];
             && n < Pages(row.Size()) && Spent(mem1, free1, mem, [], d, Regions(row.virt / PGSIZE, n), 0)
             && (row.virt / PGSIZE + n) / NENTRIES !in Tables(mem, d)
    ensures |free0| < KERNEL_PAGES - 1
  {
    hide Spent, Regions, KernelMap, Tables;
    var row := KernelMap(data)[k];
    var v, all := row.virt / PGSIZE, RowRegions(data, 4);
    SpentTwice(mem0, free0, mem1, free1, mem, [], d, RowRegions(data, k), 0, Regions(v, n), 0);
    RegionsMore(v, n, Pages(row.Size()));
    MoreRows(data, k + 1, 4);
    TooLittle(mem0, free0, mem, d, RowRegions(data, k) + Regions(v, n), 0, all, (v + n) / NENTRIES);
    assert all - {} == all;
    KernelRegions(data);
  }

  /** The kernel part is there. */
  lemma KernelPaid(data: nat, mem0: Memory, free0: seq<int>, mem: Memory, free: seq<int>, d: int)
    requires KernelData(data) && Tables(mem0, d) == {} && Spent(mem0, free0, mem, free, d, RowRegions(data, 4), 0)
    ensures |free0| == |free| + KERNEL_PAGES - 1
    ensures forall i | i in Tables(mem, d) :: KERNVPN / NENTRIES <= i
  {
    hide Tables, RowRegions;
    KernelRegions(data);
    assert RowRegions(data, 4) - {} == RowRegions(data, 4);
  }

  /** The pages that a process of n user pages takes, directory and tables included. */
  function ProcessPages(n: nat): nat {
    KERNEL_PAGES + n + (n + NENTRIES - 1) / NENTRIES
  }

  /** The tables of the kernel part do not serve user pages. */
  lemma UserGrowth(mem: Memory, d: int, n: nat)
    requires n <= KERNVPN && forall i | i in Tables(mem, d) :: KERNVPN / NENTRIES <= i
    ensures Growth(mem, d, 0, n) == ProcessPages(n) - KERNEL_PAGES
  {
    hide Regions, Tables;
    forall i | i in Regions(0, n)
      ensures i !in Tables(mem, d)
    {
      RegionsIn(0, n, i);
      assert (n - 1) / NENTRIES < KERNVPN / NENTRIES;
    }
    assert Regions(0, n) - Tables(mem, d) == Regions(0, n);
    RegionsCount(0, n);
  }

  lemma LastRegion(q: nat, n: nat)
    requires n > 0
    ensures (q * NENTRIES + n - 1) / NENTRIES == q + (n - 1) / NENTRIES
    ensures (n + NENTRIES - 1) / NENTRIES == (n - 1) / NENTRIES + 1
    ensures n > 1 && (n - 1) % NENTRIES != 0 ==> (n - 2) / NENTRIES == (n - 1) / NENTRIES
    ensures n > 1 && (n - 1) % NENTRIES == 0 ==> (n - 2) / NENTRIES == (n - 1) / NENTRIES - 1
  {
  }

  /** The page allocator state and the page directories in use. */
  class Vm {
    const end: nat
    const data: nat
    var mem: Memory
    var free: seq<int>
    ghost var dirs: set<int>
    ghost var owner: map<int, Role>

    function Lo(): nat {
      Pages(end)
    }

    /** Every managed page is free once or has one owner, and directories leave permissions to their tables. */
    ghost predicate Valid()
      reads this
    {
      && KernelData(data) && data <= end <= PHYSTOP
      && |mem| == PHYSPAGES
      && Owned(Lo(), mem, dirs, owner)
      && Conserved(Lo(), mem, free, owner)
      && Open(mem, dirs)
    }

    /** Before `kinit1` every managed page is held by the loader; `kinit1` and `kinit2` free them all. */
    constructor Kinit(kernelEnd: nat, kernelData: nat, contents: Memory, split: nat)
      requires KernelData(kernelData) && kernelData <= kernelEnd <= split <= PHYSTOP && split % PGSIZE == 0
                 && |contents| == PHYSPAGES
      ensures end == kernelEnd && data == kernelData && Valid() && dirs == {} && owner == map[]
      ensures forall p | Lo() <= p < PHYSPAGES :: p in free
      ensures forall i | 0 <= i < |free| :: Lo() <= free[i] < PHYSPAGES
    {
      end := kernelEnd;
      data := kernelData;
      mem := contents;
      free := [];
      dirs := {};
      owner := AllHeld(Pages(kernelEnd), PHYSPAGES);
      new;
      Freerange(end, split);
      Freerange(split, PHYSTOP);
      assert forall p | p in owner :: Lo() <= p < PHYSPAGES && !(Lo() <= p < PHYSPAGES);
      assert owner.Keys == {};
    }

    method Freerange(vstart: nat, vend: nat)
      requires Valid() && vstart <= PHYSTOP && vend <= PHYSTOP
      requires forall p | Pages(vstart) <= p < vend / PGSIZE :: p in owner && owner[p] == Held
      modifies this
      ensures Valid() && dirs == old(dirs)
      ensures Freed(old(owner), owner, Pages(vstart), vend / PGSIZE)
    {
      hide Owned, Conserved, Open;
      var p := PgRoundUp(vstart);
      while p + PGSIZE <= vend
        invariant Valid() && dirs == old(dirs)
        invariant p % PGSIZE == 0 && (p / PGSIZE == Pages(vstart) || (Pages(vstart) <= p / PGSIZE && p <= vend))
        invariant Freed(old(owner), owner, Pages(vstart), p / PGSIZE)
        decreases vend - p
      {
        Give(Lo(), mem, dirs, free, owner, p / PGSIZE);
        OpenPlain(Lo(), mem, dirs, owner, p / PGSIZE, JunkPage());
        var ok := Kfree(p / PGSIZE);
        assert ok;
        p := p + PGSIZE;
      }
    }

    method Kfree(p: int) returns (ok: bool)
      requires |mem| == PHYSPAGES
      modifies this
      ensures ok <==> Lo() <= p < PHYSPAGES
      ensures dirs == old(dirs) && owner == old(owner) - {p} && |mem| == PHYSPAGES
      ensures ok ==> mem == old(mem)[p := JunkPage()] && free == [p] + old(free)
      ensures !ok ==> mem == old(mem) && free == old(free)
    {
      owner := owner - {p};
      if p * PGSIZE < end || p * PGSIZE >= PHYSTOP {
        return false;
      }
      mem := mem[p := JunkPage()];
      free := [p] + free;
      return true;
    }

    method Kalloc() returns (p: int)
      requires Valid()
      modifies this
      ensures Valid() && mem == old(mem) && dirs == old(dirs)
      ensures p == NONE <==> old(free) == []
      ensures p == NONE ==> free == old(free) && owner == old(owner)
      ensures p != NONE ==>
                && p == old(free)[0] && free == old(free)[1..] && p !in old(owner)
                && owner == old(owner)[p := Held]
      ensures p != NONE ==> Lo() <= p < PHYSPAGES
    {
      if free == [] {
        return NONE;
      }
      Take(Lo(), mem, dirs, free, owner);
      p := free[0];
      free := free[1..];
      owner := owner[p := Held];
    }

    /** The table that holds the entry of page v, made if it is absent and `alloc` is set. */
    method Walkpgdir(d: int, v: nat, alloc: bool) returns (t: int)
      requires Valid() && d in dirs && v < NVPAGES
      modifies this
      ensures Valid() && dirs == old(dirs)
      ensures t == TableOf(mem, dirs, d, v / NENTRIES)
      ensures t == NONE || !alloc ==> mem == old(mem) && free == old(free) && owner == old(owner)
      ensures t == NONE && alloc ==> free == [] && v / NENTRIES !in Tables(mem, d)
      ensures t != NONE && alloc ==> Spent(old(mem), old(free), mem, free, d, {v / NENTRIES}, 0)
      ensures SamePtes(old(mem), mem, dirs) && DataKept(old(mem), old(owner), mem) && MoreTables(old(owner), owner, d)
    {
      hide Owned, Conserved, Pte, Open, Spent;
      DirOwned(Lo(), mem, dirs, owner, d);
      var i := v / NENTRIES;
      var pde := mem[d].words[i];
      if Present(pde) {
        SpentThere(mem, free, d, i);
        return pde.frame;
      }
      if !alloc {
        return NONE;
      }
      t := Kalloc();
      if t == NONE {
        return;
      }
      var e := Entry(t, PTE_P + PTE_W + PTE_U);
      WalkLinks(Lo(), mem, free, owner, dirs, d, i, t, e);
      SpentLink(mem, old(free), d, i, t, e);
      OpenPlain(Lo(), mem, dirs, owner, t, ZeroPage());
      OpenLink(mem[t := ZeroPage()], dirs, d, i, e);
      mem := mem[t := ZeroPage()];
      mem := PutEntry(mem, d, i, e);
      owner := owner[t := Table(d, i)];
    }

    /** One round of the loop of `mappages`: entry e for page v. */
    method MapPage(d: int, v: nat, e: Entry) returns (r: MapResult)
      requires Valid() && d in dirs && v < NVPAGES && Present(e) && RangeHeld(owner, v, 1, e.frame)
      modifies this
      ensures Valid() && dirs == old(dirs)
      ensures r.Mapped? ==> MapProgress(old(mem), old(owner), mem, owner, dirs, d, v, 1, e.frame, e.flags)
      ensures r.Mapped? ==> Spent(old(mem), old(free), mem, free, d, {v / NENTRIES}, 0)
      ensures r.NoMemory? ==> free == [] && mem == old(mem) && free == old(free) && owner == old(owner)
      ensures r.NoMemory? ==> v / NENTRIES !in Tables(mem, d)
      ensures r.Remap? <==> Present(Pte(old(mem), d, v))
      ensures r.Remap? ==>
                && SamePtes(old(mem), mem, dirs) && DataKept(old(mem), old(owner), mem)
                && MoreTables(old(owner), owner, d)
    {
      hide Owned, Conserved, Pte, PtesAfter, OwnersAfter, DataKept, Open, Spent, Tables;
      PresentHasTable(Lo(), mem, dirs, owner, d, v);
      var t := Walkpgdir(d, v, true);
      if t == NONE {
        return NoMemory;
      }
      TableOwned(Lo(), mem, dirs, owner, d, v / NENTRIES);
      DirOwned(Lo(), mem, dirs, owner, d);
      PteInTable(Lo(), mem, dirs, owner, d, v);
      if Present(mem[t].words[v % NENTRIES]) {
        return Remap;
      }
      SpentElsewhere(old(mem), old(free), mem, free, d, {v / NENTRIES}, 0, t, Page(mem[t].words[v % NENTRIES := e]));
      StillHeld(old(owner), owner, d, v, e.frame);
      MapOneProgress(Lo(), mem, owner, dirs, d, v, e, PutEntry(mem, t, v % NENTRIES, e));
      MapAfterWalk(old(mem), old(owner), mem, owner, PutEntry(mem, t, v % NENTRIES, e),
                   if v < KERNVPN then owner[e.frame := User(d, v)] else owner, dirs, d, v, e);
      OpenPlain(Lo(), mem, dirs, owner, t, Page(mem[t].words[v % NENTRIES := e]));
      MapConserved(Lo(), mem, PutEntry(mem, t, v % NENTRIES, e), free, owner, e.frame, d, v);
      mem := PutEntry(mem, t, v % NENTRIES, e);
      owner := if v < KERNVPN then owner[e.frame := User(d, v)] else owner;
      return Mapped;
    }

    method Mappages(d: int, va: nat, size: nat, pa: nat, perm: nat) returns (r: MapResult, ghost n: nat)
      requires Valid() && d in dirs && 0 < size && va + size <= UINT_LIMIT && pa % PGSIZE == 0
      requires RangeHeld(owner, va / PGSIZE, Pages(va % PGSIZE + size), pa / PGSIZE)
      modifies this
      ensures Valid() && dirs == old(dirs)
      ensures n <= Pages(va % PGSIZE + size)
      ensures r.Mapped? ==> n == Pages(va % PGSIZE + size)
      ensures !r.Mapped? ==> n < Pages(va % PGSIZE + size)
      ensures !r.Remap? ==> MapProgress(old(mem), old(owner), mem, owner, dirs, d, va / PGSIZE, n, pa / PGSIZE,
                WithP(perm))
      ensures !r.Remap? ==> Spent(old(mem), old(free), mem, free, d, Regions(va / PGSIZE, n), 0)
      ensures r.NoMemory? ==> free == [] && (va / PGSIZE + n) / NENTRIES !in Tables(mem, d)
      ensures r.NoMemory? && n == 0 ==> mem == old(mem) && free == old(free) && owner == old(owner)
      ensures r.Remap? ==> Present(Pte(old(mem), d, va / PGSIZE + n))
    {
      hide Owned, Conserved, Pte, MapProgress, RangeHeld, SamePtes, Open, Spent, Tables, Regions;
      SpentStart(mem, free, d, va / PGSIZE);
      var a := va / PGSIZE;
      var last := (va + size - 1) / PGSIZE;
      var frame := pa / PGSIZE;
      n := 0;
      MapStart(mem, owner, dirs, d, a, frame, WithP(perm));
      while true
        invariant a == va / PGSIZE + n && frame == pa / PGSIZE + n && a <= last
        invariant Valid() && dirs == old(dirs)
        invariant MapProgress(old(mem), old(owner), mem, owner, dirs, d, va / PGSIZE, n, pa / PGSIZE, WithP(perm))
        invariant n == 0 ==> mem == old(mem) && free == old(free) && owner == old(owner)
        invariant Spent(old(mem), old(free), mem, free, d, Regions(va / PGSIZE, n), 0)
        decreases last - a
      {
        ProgressParts(old(mem), old(owner), mem, owner, dirs, d, va / PGSIZE, n, pa / PGSIZE, WithP(perm));
        RangeNext(old(owner), owner, d, va / PGSIZE, n, Pages(va % PGSIZE + size), pa / PGSIZE);
        ghost var mem1, owner1, free1 := mem, owner, free;
        r := MapPage(d, a, Entry(frame, WithP(perm)));
        if !r.Mapped? {
          return;
        }
        SpentNext(old(mem), old(free), mem1, free1, mem, free, d, va / PGSIZE, n, a);
        MapStep(old(mem), old(owner), mem1, owner1, mem, owner, dirs, d, va / PGSIZE, n, pa / PGSIZE, WithP(perm));
        n := n + 1;
        if a == last {
          return;
        }
        a := a + 1;
        frame := frame + 1;
      }
    }

    /** The rest of a round of the loop of `deallocuvm`: frees page v, whose table is t, if it is mapped. */
    method FreePage(d: int, v: nat, t: int)
      requires Valid() && d in dirs && v < KERNVPN && t == TableOf(mem, dirs, d, v / NENTRIES) && t != NONE
      modifies this
      ensures Valid() && dirs == old(dirs)
      ensures Store(mem, free) == UnmapOne(Store(old(mem), old(free)), d, v)
      ensures Unmapped(old(mem), old(owner), mem, owner, dirs, d, v, v + 1)
    {
      hide Owned, Conserved, Pte, Unmapped, UnmapOne, UnmapRange, Open;
      DirOwned(Lo(), mem, dirs, owner, d);
      TableOwned(Lo(), mem, dirs, owner, d, v / NENTRIES);
      PteInTable(Lo(), mem, dirs, owner, d, v);
      var pte := mem[t].words[v % NENTRIES];
      if Present(pte) {
        UnmapFree(Lo(), mem, free, owner, dirs, d, v, pte.frame);
        UnmapOneIs(mem, free, dirs, d, v, pte.frame, t);
        OpenPlain(Lo(), mem, dirs, owner, t, mem[t]);
        OpenPlain(Lo(), mem, dirs, owner, pte.frame, JunkPage());
        ghost var m1 := mem[pte.frame := JunkPage()];
        OpenElsewhere(m1, dirs, t, Page(m1[t].words[v % NENTRIES := NO_ENTRY]));
        var ok := Kfree(pte.frame);
        assert ok;
        mem := PutEntry(mem, t, v % NENTRIES, NO_ENTRY);
      } else {
        UnmapAbsent(Lo(), mem, free, owner, dirs, d, v);
      }
    }

    /** Frees user pages; the loop visits only the first page of a region without a table. */
    method Deallocuvm(d: int, oldsz: nat, newsz: nat) returns (sz: nat)
      requires Valid() && d in dirs && oldsz <= KERNBASE && newsz < UINT_LIMIT
      modifies this
      ensures Valid() && dirs == old(dirs)
      ensures sz == if newsz >= oldsz then oldsz else newsz
      ensures Store(mem, free) == UnmapRange(Store(old(mem), old(free)), d, Pages(newsz), Pages(oldsz))
      ensures Unmapped(old(mem), old(owner), mem, owner, dirs, d, Pages(newsz), Pages(oldsz))
    {
      hide Owned, Conserved, Pte, Unmapped, UnmapOne, UnmapRange, SkipTo, PgRoundUp, Pages, Open;
      PagesMonotone(newsz, oldsz);
      if newsz >= oldsz {
        UnmapEmpty(Lo(), mem, free, owner, dirs, d, Pages(newsz), Pages(oldsz));
        return oldsz;
      }
      var a := PgRoundUp(newsz);
      ghost var v, hi := Pages(newsz), Pages(oldsz);
      UnmapEmpty(Lo(), mem, free, owner, dirs, d, v, v);
      while a < oldsz
        invariant a == v * PGSIZE && Pages(newsz) <= v && a < UINT_LIMIT
        invariant Valid() && dirs == old(dirs)
        invariant UnmapRange(Store(mem, free), d, v, hi) == UnmapRange(Store(old(mem), old(free)), d, Pages(newsz), hi)
        invariant Unmapped(old(mem), old(owner), mem, owner, dirs, d, Pages(newsz), if v <= hi then v else hi)
        decreases oldsz - a
      {
        ghost var mem1, free1, owner1, w := mem, free, owner, v;
        PageBelow(v, oldsz);
        DirOwned(Lo(), mem, dirs, owner, d);
        var t := Walkpgdir(d, a / PGSIZE, false);
        if t == NONE {
          SkipRegion(Lo(), mem, free, owner, dirs, d, v, hi);
          NoWrap(v);
          a := SkipTo(a);
          v := (v / NENTRIES + 1) * NENTRIES - 1;
        } else {
          UnmapRangeStep(mem, free, d, v, hi);
          FreePage(d, a / PGSIZE, t);
        }
        a := (a + PGSIZE) % UINT_LIMIT;
        v := v + 1;
        UnmapTrans(old(mem), old(owner), mem1, owner1, mem, owner, dirs, d, Pages(newsz), w, if v <= hi then v else hi);
      }
      UnmapRangeDone(mem, free, d, v, hi);
      return newsz;
    }

    /** Frees every page of directory d and nothing else. */
    method Freevm(d: int)
      requires Valid() && d in dirs
      modifies this
      ensures Valid() && dirs == old(dirs) - {d}
      ensures Lost(old(owner), owner, d)
      ensures forall p :: p in free <==> p in old(free) || (p in old(owner) && Of(old(owner)[p], d))
      ensures SamePtes(old(mem), mem, dirs) && DataKept(old(mem), owner, mem)
    {
      hide Owned, Conserved, Pte, Unmapped, UnmapRange, Lost, Dismantled, SamePtes, DataKept, Open;
      var sz := Deallocuvm(d, KERNBASE, 0);
      ghost var mem1, owner1 := mem, owner;
      DirOwned(Lo(), mem, dirs, owner, d);
      DropDir(Lo(), mem, dirs, owner, d);
      ReleaseConserved(Lo(), mem, free, owner, d);
      DismantleStart(Lo(), mem, dirs, owner, d);
      owner := Released(owner, d);
      OpenLess(mem, dirs, d);
      dirs := dirs - {d};
      var i := 0;
      while i < NENTRIES
        invariant 0 <= i <= NENTRIES && Valid() && dirs == old(dirs) - {d}
        invariant Dismantled(mem1, owner1, mem, owner, dirs, d, i)
      {
        DismantleStep(Lo(), mem1, owner1, mem, free, owner, dirs, old(dirs), d, i);
        if Present(mem[d].words[i]) {
          OpenElsewhere(mem, dirs, mem[d].words[i].frame, JunkPage());
          var ok := Kfree(mem[d].words[i].frame);
          assert ok;
        }
        i := i + 1;
      }
      NoUsersLeft(old(mem), old(owner), mem1, owner1, old(dirs), d);
      DismantleEnd(Lo(), mem1, owner1, mem, free, owner, dirs, old(dirs), d);
      OpenElsewhere(mem, dirs, d, JunkPage());
      var ok := Kfree(d);
      assert ok;
      LostAll(old(mem), old(owner), mem1, owner1, mem, owner, old(dirs), d);
      FreeGains(Lo(), old(mem), old(free), old(owner), mem, free, owner, d, old(dirs));
    }

    /** `freevm` on the way out of a failure: the new directory d goes, and with it all that it has gained. */
    method GiveUp(d: int, ghost mem0: Memory, ghost free0: seq<int>, ghost owner0: map<int, Role>)
      requires Valid() && d in dirs && Conserved(Lo(), mem0, free0, owner0)
      requires SamePtes(mem0, mem, dirs - {d}) && DataKept(mem0, owner0, mem) && Gained(owner0, owner, d)
      modifies this
      ensures Valid() && dirs == old(dirs) - {d} && owner == owner0 && multiset(free) == multiset(free0)
      ensures SamePtes(mem0, mem, dirs) && DataKept(mem0, owner0, mem)
    {
      hide Owned, Conserved, Pte, SamePtes, DataKept, Gained, Lost, Open;
      Freevm(d);
      GivenBack(Lo(), mem0, free0, owner0, old(mem), old(owner), mem, free, owner, dirs, d);
    }

    /** A new directory with the kernel part mapped, or NONE with nothing taken. */
    method Setupkvm() returns (d: int)
      requires Valid()
      modifies this
      ensures Valid() && SamePtes(old(mem), mem, old(dirs)) && DataKept(old(mem), old(owner), mem)
      ensures d == NONE <==> |old(free)| < KERNEL_PAGES
      ensures d == NONE ==> dirs == old(dirs) && owner == old(owner) && multiset(free) == multiset(old(free))
      ensures d != NONE ==> |free| == |old(free)| - KERNEL_PAGES
      ensures d != NONE ==> forall i | i in Tables(mem, d) :: KERNVPN / NENTRIES <= i
      ensures d != NONE ==> d !in old(owner) && dirs == old(dirs) + {d} && Gained(old(owner), owner, d)
      ensures d != NONE ==> d !in old(dirs) && forall v | 0 <= v < NVPAGES :: Pte(mem, d, v) == KernelPte(data, v)
      ensures d != NONE ==> forall v | 0 <= v < NVPAGES :: AccessOf(mem, d, v) == KernelAccess(data, v)
    {
      hide Owned, Conserved, Pte, SetUp, SamePtes, DataKept, Gained, Lost, RowsPte, KernelPte, KernelMap, Kmap.Size,
        Pages, Open, AccessOf, KernelAccess, Spent, Tables, Regions, RowRegions;
      d := Kalloc();
      if d == NONE {
        Unchanged(mem, owner, dirs);
        return;
      }
      SetUpStart(Lo(), old(mem), old(free), old(owner), dirs, free, d, data);
      OpenNew(mem, dirs, d);
      NoTables(mem, d);
      mem := mem[d := ZeroPage()];
      ghost var mem0, free0 := mem, free;
      SpentNoRow(mem, free, d, data);
      dirs := dirs + {d};
      owner := old(owner)[d := Dir(d)];
      assert KERNBASE + PHYSTOP <= DEVSPACE;
      var k := 0;
      while k < 4
        invariant 0 <= k <= 4 && Valid() && dirs == old(dirs) + {d} && d != NONE && d !in old(dirs) && d !in old(owner)
        invariant SetUp(old(mem), old(owner), mem, owner, old(dirs), d, data, k)
        invariant Spent(mem0, free0, mem, free, d, RowRegions(data, k), 0)
      {
        var row := KernelMap(data)[k];
        RowFacts(data, k);
        ghost var mem1, owner1, free1 := mem, owner, free;
        KernelRange(owner, row.virt / PGSIZE, Pages(row.Size()), row.start / PGSIZE);
        ghost var n;
        var r;
        r, n := Mappages(d, row.virt, row.Size(), row.start, row.perm);
        SetUpStep(old(mem), old(owner), mem1, owner1, mem, owner, old(dirs), d, data, k, r, n);
        if r.NoMemory? {
          NoRow(data, k, mem0, free0, mem1, free1, mem, d, n);
          assert dirs - {d} == old(dirs);
          GiveUp(d, old(mem), old(free), old(owner));
          return NONE;
        }
        SpentRow(data, k, mem0, free0, mem1, free1, mem, free, d, n);
        k := k + 1;
      }
      KernelPaid(data, mem0, free0, mem, free, d);
      SetUpDone(old(mem), old(owner), mem, owner, old(dirs), d, data);
      KernelAccessIs(Lo(), mem, dirs, owner, d, data);
    }

    /** Grows the process to newsz with zeroed pages, or fails and takes every page of the growth back. */
    method Allocuvm(d: int, oldsz: nat, newsz: nat) returns (sz: nat, ghost ok: bool)
      requires Valid() && d in dirs && oldsz < UINT_LIMIT && newsz < UINT_LIMIT
      requires forall v | Pages(oldsz) <= v < Pages(newsz) && v < KERNVPN :: !Present(Pte(mem, d, v))
      modifies this
      ensures Valid() && dirs == old(dirs) && DataKept(old(mem), old(owner), mem)
      ensures newsz >= KERNBASE ==> sz == 0
      ensures newsz < oldsz && newsz < KERNBASE ==> sz == oldsz
      ensures newsz >= KERNBASE || newsz < oldsz ==> !ok && mem == old(mem) && free == old(free) && owner == old(owner)
      ensures ok ==> sz == newsz && Fresh(old(mem), old(owner), mem, owner, dirs, d, Pages(oldsz),
                Zeroed(Pages(newsz) - Pages(oldsz)))
      ensures ok ==> forall v | Pages(oldsz) <= v < Pages(newsz) && v < NVPAGES ::
                AccessOf(mem, d, v) == Access(true, true, true)
      ensures oldsz <= newsz < KERNBASE ==>
                Pages(oldsz) <= Pages(newsz) && (ok <==> Growth(old(mem), d, Pages(oldsz), Pages(newsz)) <= |old(free)|)
      ensures oldsz <= newsz < KERNBASE && !ok ==> sz == 0
      ensures !ok ==> SameLive(old(mem), mem, dirs) && MoreTables(old(owner), owner, d)
    {
      hide Owned, Conserved, Pte, Fresh, FreshPtes, FreshOwners, Unmapped, MapProgress, Pages, SameLive, MoreTables,
        DataKept, PgRoundUp, UnmapRange, RangeHeld, Open, AccessOf, Spent, Tables, Regions, Growth,
        SamePtes;
      NothingNew(Lo(), mem, dirs, owner, d);
      if newsz >= KERNBASE {
        return 0, false;
      }
      if newsz < oldsz {
        return oldsz, false;
      }
      PagesUpTo(oldsz, newsz);
      var a := PgRoundUp(oldsz);
      ghost var v := Pages(oldsz);
      ghost var lo, hi := v, Pages(newsz);
      FreshStart(mem, owner, dirs, d, v);
      NoUserThere(Lo(), mem, owner, dirs, d, lo, hi);
      SpentStart(mem, free, d, lo);
      while a < newsz
        invariant a == v * PGSIZE && lo <= v <= hi
        invariant Valid() && dirs == old(dirs)
        invariant Fresh(old(mem), old(owner), mem, owner, dirs, d, lo, Zeroed(v - lo))
        invariant Spent(old(mem), old(free), mem, free, d, Regions(lo, v - lo), v - lo)
        decreases newsz - a
      {
        PageBelow(v, newsz);
        ghost var mem1, owner1, free1 := mem, owner, free;
        DirOwned(Lo(), mem, dirs, owner, d);
        var p := Kalloc();
        if p == NONE {
          NoPage(old(mem), old(free), mem, d, lo, v, hi);
          var z := Deallocuvm(d, newsz, oldsz);
          NoZeroDir(Lo(), mem1, dirs, owner1);
          NoZeroDir(Lo(), old(mem), dirs, old(owner));
          NoZeroDir(Lo(), mem, dirs, owner);
          assert owner1 - {NONE} == owner1;
          GrowthUndone(old(mem), old(owner), mem1, owner1, mem, owner, dirs, d, lo, hi, Zeroed(v - lo), NONE);
          assert owner - {NONE} == owner;
          return 0, false;
        }
        FillHeld(Lo(), mem, free, owner1, dirs, p, ZeroPage());
        OpenPlain(Lo(), mem, dirs, owner, p, ZeroPage());
        TablesElsewhere(mem, d, p, ZeroPage());
        mem := mem[p := ZeroPage()];
        FreshFilled(old(mem), old(owner), mem1, owner1, dirs, d, lo, Zeroed(v - lo), p, ZeroPage());
        OneHeld(owner, v, p);
        ghost var mem2, owner2 := mem, owner;
        assert owner2 - {p} == owner1;
        var r; ghost var n;
        r, n := Mappages(d, a, PGSIZE, p * PGSIZE, PTE_W + PTE_U);
        NotRemapped(old(mem), old(owner), mem2, owner1, dirs, d, lo, Zeroed(v - lo), v);
        if r.NoMemory? {
          NoTable(old(mem), old(free), mem1, free1, mem2, d, lo, v, hi);
          var z := Deallocuvm(d, newsz, oldsz);
          GrowthUndone(old(mem), old(owner), mem2, owner2, mem, owner, dirs, d, lo, hi, Zeroed(v - lo), p);
          HeldStill(mem2, owner2, mem, owner, dirs, d, lo, hi, p);
          FreeHeld(Lo(), old(mem), old(owner), mem, free, owner, dirs, d, p);
          OpenPlain(Lo(), mem, dirs, owner, p, JunkPage());
          var freed := Kfree(p);
          assert freed;
          return 0, false;
        }
        FreshStep(old(mem), old(owner), mem2, owner2, mem, owner, dirs, d, lo, Zeroed(v - lo), v, p, ZeroPage(),
          PTE_W + PTE_U);
        SpentPage(old(mem), old(free), mem1, free1, mem2, mem, free, d, lo, v);
        a := a + PGSIZE;
        v := v + 1;
        ZeroedNext(v - lo);
      }
      FreshKeeps(old(mem), old(owner), mem, owner, dirs, d, lo, Zeroed(v - lo));
      PagesCover(v, newsz);
      GrownAccess(Lo(), old(mem), old(owner), mem, owner, dirs, d, lo, v - lo);
      GrowthPaid(old(mem), old(free), mem, free, d, lo, v);
      return newsz, true;
    }

    /** A child's address space: the parent's pages below sz copied, or nothing taken. */
    method Copyuvm(pgdir: int, sz: nat) returns (r: CopyResult)
      requires Valid() && pgdir in dirs && sz <= KERNBASE
      modifies this
      ensures r.CopyPanic? ==> exists v :: 0 <= v < Pages(sz) && !Present(Pte(old(mem), pgdir, v))
      ensures !r.CopyPanic? ==> Valid() && SamePtes(old(mem), mem, old(dirs)) && DataKept(old(mem), old(owner), mem)
      ensures r.CopyFailed? ==> dirs == old(dirs) && owner == old(owner) && multiset(free) == multiset(old(free))
      ensures r.CopyFailed? ==> |old(free)| < ProcessPages(Pages(sz))
      ensures r.Copied? ==> |free| == |old(free)| - ProcessPages(Pages(sz))
      ensures r.Copied? ==> r.dir !in old(dirs) && dirs == old(dirs) + {r.dir} && Gained(old(owner), owner, r.dir)
      ensures r.Copied? ==> CopyOf(old(mem), old(owner), mem, owner, pgdir, r.dir, Pages(sz), data)
      ensures r.Copied? ==> SameAccess(old(mem), pgdir, mem, r.dir, Pages(sz))
    {
      hide Owned, Conserved, Pte, Fresh, CopyOf, SamePtes, DataKept, Gained, Lost, Pages, MapProgress, RangeHeld,
        KernelPte, KernelAccess, Open, AccessOf, SameAccess, Spent, Tables, Regions, Growth;
      var d := Setupkvm();
      if d == NONE {
        return CopyFailed;
      }
      ghost var mem1, owner1, free1 := mem, owner, free;
      SpentStart(mem, free, d, 0);
      var i := 0;
      ghost var v := 0;
      FreshStart(mem, owner, dirs, d, 0);
      PagesUpTo0(sz);
      UserGrowth(mem, d, Pages(sz));
      while i < sz
        invariant i == v * PGSIZE && v <= Pages(sz) <= KERNVPN && dirs == old(dirs) + {d} && Valid()
        invariant Fresh(mem1, owner1, mem, owner, dirs, d, 0, Copies(old(mem), pgdir, v))
        invariant Spent(mem1, free1, mem, free, d, Regions(0, v), v)
        decreases sz - i
      {
        PageBelow(v, sz);
        ParentPage(Lo(), old(mem), old(owner), old(dirs), mem1, owner1, mem, owner, pgdir, d, v);
        var t := Walkpgdir(pgdir, i / PGSIZE, false);
        if t == NONE {
          PresentHasTable(Lo(), mem, dirs, owner, pgdir, v);
          return CopyPanic;
        }
        PteInTable(Lo(), mem, dirs, owner, pgdir, v);
        var pte := mem[t].words[i / PGSIZE % NENTRIES];
        if !Present(pte) {
          return CopyPanic;
        }
        ghost var mem2, owner2, free2 := mem, owner, free;
        DirOwned(Lo(), mem, dirs, owner, d);
        var p := Kalloc();
        if p == NONE {
          NoPage(mem1, free1, mem, d, 0, v, Pages(sz));
          CopyGained(old(mem), old(owner), old(dirs), mem1, owner1, mem, owner, d, Copies(old(mem), pgdir, v));
          assert dirs - {d} == old(dirs);
          GiveUp(d, old(mem), old(free), old(owner));
          return CopyFailed;
        }
        var x := mem[pte.frame];
        FillHeld(Lo(), mem, free, owner2, dirs, p, x);
        FreshFilled(mem1, owner1, mem2, owner2, dirs, d, 0, Copies(old(mem), pgdir, v), p, x);
        OpenPlain(Lo(), mem, dirs, owner, p, x);
        TablesElsewhere(mem, d, p, x);
        mem := mem[p := x];
        OneHeld(owner, v, p);
        NotRemapped(mem1, owner1, mem, owner2, dirs, d, 0, Copies(old(mem), pgdir, v), v);
        KernelBelow(data, v);
        ghost var mem3, owner3 := mem, owner;
        assert owner3 - {p} == owner2;
        var m; ghost var n;
        m, n := Mappages(d, i, PGSIZE, p * PGSIZE, pte.flags);
        if m.NoMemory? {
          NoTable(mem1, free1, mem2, free2, mem3, d, 0, v, Pages(sz));
          FillHeld(Lo(), mem2, free, owner2, dirs, p, JunkPage());
          FreshFilled(mem1, owner1, mem2, owner2, dirs, d, 0, Copies(old(mem), pgdir, v), p, JunkPage());
          Give(Lo(), mem, dirs, free, owner, p);
          OpenPlain(Lo(), mem, dirs, owner, p, JunkPage());
          var ok := Kfree(p);
          assert ok && mem == mem2[p := JunkPage()] && owner == owner2;
          CopyGained(old(mem), old(owner), old(dirs), mem1, owner1, mem, owner, d, Copies(old(mem), pgdir, v));
          assert dirs - {d} == old(dirs);
          GiveUp(d, old(mem), old(free), old(owner));
          return CopyFailed;
        }
        FreshStep(mem1, owner1, mem3, owner3, mem, owner, dirs, d, 0, Copies(old(mem), pgdir, v), v, p, x, pte.flags);
        SpentPage(mem1, free1, mem2, free2, mem3, mem, free, d, 0, v);
        i := i + PGSIZE;
        v := v + 1;
      }
      PagesCover(v, sz);
      GrowthPaid(mem1, free1, mem, free, d, 0, v);
      CopyGained(old(mem), old(owner), old(dirs), mem1, owner1, mem, owner, d, Copies(old(mem), pgdir, v));
      CopyDone(old(mem), old(owner), mem1, owner1, mem, owner, dirs, pgdir, d, v, data);
      CopiedAccess(Lo(), old(mem), old(dirs), old(owner), mem, dirs, owner, pgdir, d, v, data);
      return Copied(d);
    }
  }

  // ---------- small steps of the methods above ----------

  /** Exactly the pages of directory d have lost their owner. */
  ghost predicate Lost(owner0: map<int, Role>, owner: map<int, Role>, d: int) {
    && (forall p | p in owner :: p in owner0 && owner[p] == owner0[p] && !Of(owner0[p], d))
    && (forall p | p in owner0 && !Of(owner0[p], d) :: p in owner)
  }

  predicate TableBelow(r: Role, d: int, i: nat) {
    r.Table? && r.d == d && r.i < i
  }

  /** Directory d has been given up and its tables below i freed. */
  ghost predicate Dismantled(mem1: Memory, owner1: map<int, Role>, mem: Memory, owner: map<int, Role>, dirs: set<int>,
                             d: int, i: nat) {
    && 0 <= d < |mem1| && |mem| == |mem1| && mem[d] == mem1[d]
    && (forall p | p in owner :: p in owner1 && !TableBelow(owner1[p], d, i)
                                 && owner[p] == if Of(owner1[p], d) then Held else owner1[p])
    && (forall p | p in owner1 && !TableBelow(owner1[p], d, i) :: p in owner)
    && SamePtes(mem1, mem, dirs) && DataKept(mem1, owner, mem)
  }

  lemma DismantleStart(lo: nat, mem: Memory, dirs: set<int>, owner: map<int, Role>, d: int)
    requires Owned(lo, mem, dirs, owner) && d in dirs
    ensures Dismantled(mem, owner, mem, Released(owner, d), dirs - {d}, d, 0)
  {
    hide Owned;
    DirOwned(lo, mem, dirs, owner, d);
  }

  lemma ReleaseConserved(lo: nat, mem: Memory, free: seq<int>, owner: map<int, Role>, d: int)
    requires Conserved(lo, mem, free, owner)
    ensures Conserved(lo, mem, free, Released(owner, d))
  {
  }

  lemma DismantleStep(lo: nat, mem1: Memory, owner1: map<int, Role>, mem: Memory, free: seq<int>, owner: map<int, Role>,
                      dirs: set<int>, dirs1: set<int>, d: int, i: nat)
    requires i < NENTRIES && d in dirs1 && dirs == dirs1 - {d}
    requires Owned(lo, mem1, dirs1, owner1) && Dismantled(mem1, owner1, mem, owner, dirs, d, i)
    requires Owned(lo, mem, dirs, owner) && Conserved(lo, mem, free, owner)
    ensures 0 <= d < |mem|
    ensures !Present(mem[d].words[i]) ==> Dismantled(mem1, owner1, mem, owner, dirs, d, i + 1)
    ensures var p := mem[d].words[i].frame;
            Present(mem[d].words[i]) ==>
              && lo <= p < |mem| && p !in dirs
              && Owned(lo, mem[p := JunkPage()], dirs, owner - {p})
              && Conserved(lo, mem[p := JunkPage()], [p] + free, owner - {p})
              && Dismantled(mem1, owner1, mem[p := JunkPage()], owner - {p}, dirs, d, i + 1)
  {
    hide Owned, Conserved, Pte;
    DirOwned(lo, mem1, dirs1, owner1, d);
    forall q | q in owner1 && owner1[q] == Table(d, i)
      ensures Present(mem1[d].words[i]) && mem1[d].words[i].frame == q
    {
      OwnedTable(lo, mem1, dirs1, owner1, q);
    }
    if Present(mem[d].words[i]) {
      var p := mem[d].words[i].frame;
      TableOwned(lo, mem1, dirs1, owner1, d, i);
      Give(lo, mem, dirs, free, owner, p);
      if p in dirs {
        DirOwned(lo, mem, dirs, owner, p);
      }
    }
  }

  lemma OwnedTable(lo: nat, mem: Memory, dirs: set<int>, owner: map<int, Role>, p: int)
    requires Owned(lo, mem, dirs, owner) && p in owner && owner[p].Table?
    ensures ValidRole(owner[p]) && owner[p].d in dirs && TableOf(mem, dirs, owner[p].d, owner[p].i) == p
              && lo <= p < |mem|
  {
    assert ValidRole(owner[p]) && Occupant(mem, dirs, owner[p]) == p;
  }

  lemma OwnedDir(lo: nat, mem: Memory, dirs: set<int>, owner: map<int, Role>, p: int)
    requires Owned(lo, mem, dirs, owner) && p in owner && owner[p].Dir?
    ensures owner[p].d == p && p in dirs
  {
    assert ValidRole(owner[p]) && Occupant(mem, dirs, owner[p]) == p;
  }

  lemma DismantleEnd(lo: nat, mem1: Memory, owner1: map<int, Role>, mem: Memory, free: seq<int>, owner: map<int, Role>,
                     dirs: set<int>, dirs1: set<int>, d: int)
    requires d in dirs1 && dirs == dirs1 - {d}
    requires Owned(lo, mem1, dirs1, owner1) && Dismantled(mem1, owner1, mem, owner, dirs, d, NENTRIES)
    requires Owned(lo, mem, dirs, owner) && Conserved(lo, mem, free, owner)
    requires forall p | p in owner1 :: !UserIn(owner1[p], d, 0, KERNVPN)
    ensures lo <= d < |mem|
    ensures Owned(lo, mem[d := JunkPage()], dirs, owner - {d})
    ensures Conserved(lo, mem[d := JunkPage()], [d] + free, owner - {d})
    ensures Lost(owner1, owner - {d}, d)
    ensures SamePtes(mem1, mem[d := JunkPage()], dirs) && DataKept(mem1, owner - {d}, mem[d := JunkPage()])
  {
    hide Owned, Conserved, Pte;
    DirOwned(lo, mem1, dirs1, owner1, d);
    Give(lo, mem, dirs, free, owner, d);
    forall p | p in owner1 && Of(owner1[p], d)
      ensures p == d || TableBelow(owner1[p], d, NENTRIES)
    {
      if owner1[p].Table? {
        OwnedTable(lo, mem1, dirs1, owner1, p);
      } else if owner1[p].Dir? {
        OwnedDir(lo, mem1, dirs1, owner1, p);
      } else {
        OwnedUser(lo, mem1, dirs1, owner1, p);
      }
    }
  }

  lemma NoUsersLeft(mem0: Memory, owner0: map<int, Role>, mem: Memory, owner: map<int, Role>, dirs: set<int>, d: int)
    requires Unmapped(mem0, owner0, mem, owner, dirs, d, 0, KERNVPN)
    ensures forall p | p in owner :: !UserIn(owner[p], d, 0, KERNVPN)
  {
  }

  lemma LostAll(mem0: Memory, owner0: map<int, Role>, mem1: Memory, owner1: map<int, Role>, mem: Memory,
                owner: map<int, Role>,
                dirs: set<int>, d: int)
    requires Unmapped(mem0, owner0, mem1, owner1, dirs, d, 0, KERNVPN)
    requires Lost(owner1, owner, d) && SamePtes(mem1, mem, dirs - {d}) && DataKept(mem1, owner, mem)
    ensures Lost(owner0, owner, d) && SamePtes(mem0, mem, dirs - {d}) && DataKept(mem0, owner, mem)
  {
    hide Pte;
  }

  lemma FreeGains(lo: nat, mem0: Memory, free0: seq<int>, owner0: map<int, Role>, mem: Memory, free: seq<int>,
                  owner: map<int, Role>, d: int, dirs: set<int>)
    requires Conserved(lo, mem0, free0, owner0) && Conserved(lo, mem, free, owner) && |mem| == |mem0|
               && Lost(owner0, owner, d)
    requires Owned(lo, mem0, dirs, owner0)
    ensures forall p :: p in free <==> p in free0 || (p in owner0 && Of(owner0[p], d))
  {
    forall p
      ensures p in free <==> p in free0 || (p in owner0 && Of(owner0[p], d))
    {
      if p in free {
        assert lo <= p < |mem| && p !in owner;
      }
      if p in free0 {
        assert lo <= p < |mem| && p !in owner0;
      }
    }
  }

  /** Owners are kept; every new owner belongs to d. */
  ghost predicate Gained(owner0: map<int, Role>, owner: map<int, Role>, d: int) {
    && (forall p | p in owner0 :: p in owner && owner[p] == owner0[p] && !Of(owner0[p], d))
    && (forall p | p in owner && p !in owner0 :: Of(owner[p], d))
  }

  /** Directory d is new and holds the first k rows of the kernel map. */
  ghost predicate SetUp(mem0: Memory, owner0: map<int, Role>, mem: Memory, owner: map<int, Role>, dirs: set<int>,
                        d: int, data: nat, k: nat)
    requires k <= 4
  {
    && SamePtes(mem0, mem, dirs) && DataKept(mem0, owner0, mem) && Gained(owner0, owner, d)
    && forall v | 0 <= v < NVPAGES :: Pte(mem, d, v) == RowsPte(data, k, v)
  }

  lemma Unchanged(mem: Memory, owner: map<int, Role>, dirs: set<int>)
    ensures SamePtes(mem, mem, dirs) && DataKept(mem, owner, mem)
  {
  }

  lemma KernelRange(owner: map<int, Role>, a: nat, n: nat, pa: nat)
    requires KERNVPN <= a
    ensures RangeHeld(owner, a, n, pa)
  {
  }

  lemma NotOf(lo: nat, mem: Memory, dirs: set<int>, owner: map<int, Role>, d: int)
    requires Owned(lo, mem, dirs, owner) && d !in dirs
    ensures forall p | p in owner :: !Of(owner[p], d)
  {
    hide Owned, Pte;
    forall p | p in owner
      ensures !Of(owner[p], d)
    {
      if owner[p].User? {
        OwnedUser(lo, mem, dirs, owner, p);
      } else if owner[p].Table? {
        OwnedTable(lo, mem, dirs, owner, p);
      } else if owner[p].Dir? {
        OwnedDir(lo, mem, dirs, owner, p);
      }
    }
  }

  lemma SetUpStart(lo: nat, mem: Memory, free0: seq<int>, owner: map<int, Role>, dirs: set<int>, free: seq<int>,
                   d: int, data: nat)
    requires Owned(lo, mem, dirs, owner) && Owned(lo, mem, dirs, owner[d := Held])
               && Conserved(lo, mem, free, owner[d := Held])
    requires d !in owner && 0 <= d < |mem|
    ensures d !in dirs
    ensures Owned(lo, mem[d := ZeroPage()], dirs + {d}, owner[d := Dir(d)])
    ensures Conserved(lo, mem[d := ZeroPage()], free, owner[d := Dir(d)])
    ensures SetUp(mem, owner, mem[d := ZeroPage()], owner[d := Dir(d)], dirs, d, data, 0)
  {
    hide Owned, Pte;
    PlainWrite(lo, mem, dirs, owner[d := Held], d, ZeroPage());
    AddDir(lo, mem[d := ZeroPage()], dirs, owner[d := Held], d);
    assert owner[d := Held][d := Dir(d)] == owner[d := Dir(d)];
    NotOf(lo, mem, dirs, owner, d);
  }

  /** One more row; the rows never overlap, so `mappages` never finds a page mapped already. */
  lemma SetUpStep(mem0: Memory, owner0: map<int, Role>, mem1: Memory, owner1: map<int, Role>, mem: Memory,
                  owner: map<int, Role>,
                  dirs: set<int>, d: int, data: nat, k: nat, r: MapResult, n: nat)
    requires KernelData(data) && k < 4 && d !in dirs
    requires var row := KernelMap(data)[k];
             && n <= Pages(row.Size())
             && (r.Mapped? ==> n == Pages(row.Size()))
             && (!r.Mapped? ==> n < Pages(row.Size()))
             && row.virt / PGSIZE + Pages(row.Size()) <= NVPAGES
             && (r.Remap? ==> Present(Pte(mem1, d, row.virt / PGSIZE + n)))
             && (!r.Remap? ==> MapProgress(mem1, owner1, mem, owner, dirs + {d}, d, row.virt / PGSIZE, n,
                  row.start / PGSIZE, WithP(row.perm)))
    requires forall v | KernelMap(data)[k].Covers(v) :: RowsPte(data, k, v) == NO_ENTRY
    requires KERNVPN <= KernelMap(data)[k].virt / PGSIZE
    requires SetUp(mem0, owner0, mem1, owner1, dirs, d, data, k)
    ensures !r.Remap?
    ensures r.Mapped? ==> SetUp(mem0, owner0, mem, owner, dirs, d, data, k + 1)
    ensures SamePtes(mem0, mem, dirs) && DataKept(mem0, owner0, mem) && Gained(owner0, owner, d)
  {
    hide Pte, KernelMap, RowsPte, Pages;
    var row := KernelMap(data)[k];
    assert !r.Mapped? ==> row.Covers(row.virt / PGSIZE + n);
    if r.Mapped? {
      forall v | 0 <= v < NVPAGES
        ensures Pte(mem, d, v) == RowsPte(data, k + 1, v)
      {
        assert Pte(mem, d, v) == PteAfter(Pte(mem1, d, v), d, v, d, row.virt / PGSIZE, n, row.start / PGSIZE,
          WithP(row.perm));
        RowsPteNext(data, k, v);
      }
    }
  }

  lemma RowsPteNext(data: nat, k: nat, v: nat)
    requires k < 4
    ensures RowsPte(data, k + 1, v) ==
              if KernelMap(data)[k].Covers(v) then KernelMap(data)[k].At(v) else RowsPte(data, k, v)
  {
  }

  /** Giving up a new directory restores every owner, the free pages and all that was mapped before. */
  lemma GivenBack(lo: nat, mem0: Memory, free0: seq<int>, owner0: map<int, Role>, mem1: Memory, owner1: map<int, Role>,
                  mem: Memory, free: seq<int>, owner: map<int, Role>, dirs: set<int>, d: int)
    requires SamePtes(mem0, mem1, dirs) && DataKept(mem0, owner0, mem1) && Gained(owner0, owner1, d)
    requires SamePtes(mem1, mem, dirs) && DataKept(mem1, owner, mem) && Lost(owner1, owner, d)
    requires Conserved(lo, mem0, free0, owner0) && Conserved(lo, mem, free, owner)
    ensures owner == owner0 && multiset(free) == multiset(free0)
    ensures SamePtes(mem0, mem, dirs) && DataKept(mem0, owner0, mem)
  {
    hide Pte, Conserved;
    assert forall p | p in owner :: p in owner0 && owner[p] == owner0[p];
    assert forall p | p in owner0 :: p in owner1 && p in owner;
    assert owner == owner0;
    SameFree(lo, mem0, mem, free0, free, owner);
  }

  lemma SetUpDone(mem0: Memory, owner0: map<int, Role>, mem: Memory, owner: map<int, Role>, dirs: set<int>, d: int,
                  data: nat)
    requires KernelData(data) && SetUp(mem0, owner0, mem, owner, dirs, d, data, 4)
    ensures SamePtes(mem0, mem, dirs) && DataKept(mem0, owner0, mem) && Gained(owner0, owner, d)
    ensures forall v | 0 <= v < NVPAGES :: Pte(mem, d, v) == KernelPte(data, v)
  {
    hide Pte, RowsPte, KernelPte;
    forall v | 0 <= v < NVPAGES
      ensures Pte(mem, d, v) == KernelPte(data, v)
    {
      RowsAreKernel(data, v);
    }
  }

  // ---------- new user pages ----------

  /** What a new user page is given: permissions and contents. */
  datatype Given = Given(flags: nat, page: Page)

  function Zeroed(n: int): (g: seq<Given>)
    ensures |g| == if n < 0 then 0 else n
  {
    if n <= 0 then [] else Zeroed(n - 1) + [Given(PTE_P + PTE_W + PTE_U, ZeroPage())]
  }

  lemma {:induction false} ZeroedAt(n: nat, i: nat)
    requires i < n
    ensures Zeroed(n)[i] == Given(PTE_P + PTE_W + PTE_U, ZeroPage())
  {
    if i < n - 1 {
      ZeroedAt(n - 1, i);
    }
  }

  /** The pages of a growth may be read and written by the user. */
  lemma GrownAccess(lo: nat, mem0: Memory, owner0: map<int, Role>, mem: Memory, owner: map<int, Role>, dirs: set<int>,
                    d: int, a: nat, n: nat)
    requires d in dirs && Fresh(mem0, owner0, mem, owner, dirs, d, a, Zeroed(n))
    requires Owned(lo, mem, dirs, owner) && Open(mem, dirs)
    ensures forall v | a <= v < a + n && v < NVPAGES :: AccessOf(mem, d, v) == Access(true, true, true)
  {
    hide Owned, Open, Pte, AccessOf, FreshOwners, DataKept, Zeroed;
    forall v | a <= v < a + n && v < NVPAGES
      ensures AccessOf(mem, d, v) == Access(true, true, true)
    {
      AccessIsPte(lo, mem, dirs, owner, d, v);
      ZeroedAt(n, v - a);
    }
  }

  lemma ZeroedNext(n: nat)
    requires 0 < n
    ensures Zeroed(n) == Zeroed(n - 1) + [Given(PTE_P + PTE_W + PTE_U, ZeroPage())]
  {
  }

  /** Pages a, a + 1, ... of d are mapped to pages that were free, with the given permissions and contents; no other
      mapping differs. */
  ghost predicate FreshPtes(mem0: Memory, owner0: map<int, Role>, mem: Memory, owner: map<int, Role>, dirs: set<int>,
                            d: int, a: nat, g: seq<Given>) {
    && (forall c, v | c in dirs && 0 <= v < NVPAGES && !(c == d && a <= v < a + |g|) ::
         Pte(mem, c, v) == Pte(mem0, c, v))
    && (forall v | a <= v < a + |g| && v < NVPAGES ::
          FreshPage(owner0, mem, owner, Pte(mem, d, v), User(d, v), g[v - a]))
  }

  /** Entry e names a page that was free, has role r now, and holds what it was given. */
  ghost predicate FreshPage(owner0: map<int, Role>, mem: Memory, owner: map<int, Role>, e: Entry, r: Role, g: Given) {
    && Present(e) && e.flags == g.flags
    && e.frame !in owner0 && e.frame in owner && owner[e.frame] == r
    && e.frame < |mem| && mem[e.frame] == g.page
  }

  /** Owners are kept; new ones are tables of d and its new user pages. */
  ghost predicate FreshOwners(owner0: map<int, Role>, owner: map<int, Role>, d: int, a: nat, b: nat) {
    && (forall p | p in owner0 :: p in owner && owner[p] == owner0[p])
    && (forall p | p in owner && p !in owner0 :: (owner[p].Table? && owner[p].d == d) || UserIn(owner[p], d, a, b))
  }

  ghost predicate Fresh(mem0: Memory, owner0: map<int, Role>, mem: Memory, owner: map<int, Role>, dirs: set<int>,
                        d: int, a: nat, g: seq<Given>) {
    && FreshPtes(mem0, owner0, mem, owner, dirs, d, a, g)
    && FreshOwners(owner0, owner, d, a, a + |g|)
    && DataKept(mem0, owner0, mem)
  }

  lemma FreshStart(mem: Memory, owner: map<int, Role>, dirs: set<int>, d: int, a: nat)
    ensures Fresh(mem, owner, mem, owner, dirs, d, a, [])
  {
    hide Pte;
  }

  lemma FreshKeeps(mem0: Memory, owner0: map<int, Role>, mem: Memory, owner: map<int, Role>, dirs: set<int>, d: int,
                   a: nat, g: seq<Given>)
    requires Fresh(mem0, owner0, mem, owner, dirs, d, a, g)
    ensures DataKept(mem0, owner0, mem)
  {
  }

  /** Filling a page just taken off the free list disturbs nothing. */
  lemma FillHeld(lo: nat, mem: Memory, free: seq<int>, owner: map<int, Role>, dirs: set<int>, p: int, x: Page)
    requires p !in owner && Owned(lo, mem, dirs, owner[p := Held]) && Conserved(lo, mem, free, owner[p := Held])
               && 0 <= p < |mem|
    ensures Owned(lo, mem[p := x], dirs, owner[p := Held]) && Conserved(lo, mem[p := x], free, owner[p := Held])
    ensures SamePtes(mem, mem[p := x], dirs)
  {
    hide Owned, Pte;
    PlainWrite(lo, mem, dirs, owner[p := Held], p, x);
  }

  lemma FreshFilled(mem0: Memory, owner0: map<int, Role>, mem: Memory, owner: map<int, Role>, dirs: set<int>, d: int,
                    a: nat, g: seq<Given>,
                    p: int, x: Page)
    requires Fresh(mem0, owner0, mem, owner, dirs, d, a, g) && p !in owner && 0 <= p < |mem| && d in dirs
    requires SamePtes(mem, mem[p := x], dirs)
    ensures Fresh(mem0, owner0, mem[p := x], owner, dirs, d, a, g) && p !in owner0
  {
    hide Pte;
    var m := mem[p := x];
    forall v | a <= v < a + |g| && v < NVPAGES
      ensures FreshPage(owner0, m, owner, Pte(m, d, v), User(d, v), g[v - a])
    {
      assert FreshPage(owner0, mem, owner, Pte(mem, d, v), User(d, v), g[v - a]);
    }
  }

  lemma OneHeld(owner: map<int, Role>, v: nat, p: nat)
    requires p in owner && owner[p] == Held
    ensures RangeHeld(owner, v * PGSIZE / PGSIZE, Pages(v * PGSIZE % PGSIZE + PGSIZE), p * PGSIZE / PGSIZE)
    ensures Pages(v * PGSIZE % PGSIZE + PGSIZE) == 1 && v * PGSIZE / PGSIZE == v && p * PGSIZE / PGSIZE == p
  {
  }

  lemma NotRemapped(mem0: Memory, owner0: map<int, Role>, mem: Memory, owner: map<int, Role>, dirs: set<int>, d: int,
                    a: nat, g: seq<Given>, v: nat)
    requires Fresh(mem0, owner0, mem, owner, dirs, d, a, g) && d in dirs && v == a + |g| && v < NVPAGES
    ensures Pte(mem, d, v) == Pte(mem0, d, v)
  {
  }

  lemma FreshStep(mem0: Memory, owner0: map<int, Role>, mem1: Memory, owner1: map<int, Role>, mem: Memory,
                  owner: map<int, Role>, dirs: set<int>,
                  d: int, a: nat, g: seq<Given>, v: nat, p: nat, x: Page, perm: nat)
    requires d in dirs && v == a + |g| && v < KERNVPN && p in owner1 && owner1[p] == Held && p < |mem1| && mem1[p] == x
    requires p !in owner0
    requires Fresh(mem0, owner0, mem1, owner1 - {p}, dirs, d, a, g)
    requires MapProgress(mem1, owner1, mem, owner, dirs, d, v, 1, p, WithP(perm))
    ensures Fresh(mem0, owner0, mem, owner, dirs, d, a, g + [Given(WithP(perm), x)])
  {
    hide Pte;
    FreshPtesStep(mem0, owner0, mem1, owner1, mem, owner, dirs, d, a, g, v, p, x, perm);
  }

  lemma FreshPtesStep(mem0: Memory, owner0: map<int, Role>, mem1: Memory, owner1: map<int, Role>, mem: Memory,
                      owner: map<int, Role>, dirs: set<int>,
                      d: int, a: nat, g: seq<Given>, v: nat, p: nat, x: Page, perm: nat)
    requires d in dirs && v == a + |g| && v < KERNVPN && p in owner1 && owner1[p] == Held && p < |mem1| && mem1[p] == x
    requires p !in owner0
    requires FreshPtes(mem0, owner0, mem1, owner1 - {p}, dirs, d, a, g)
    requires MapProgress(mem1, owner1, mem, owner, dirs, d, v, 1, p, WithP(perm))
    ensures FreshPtes(mem0, owner0, mem, owner, dirs, d, a, g + [Given(WithP(perm), x)])
  {
    hide Pte;
  }

  // ---------- taking a growth back ----------

  /** An entry as the hardware sees it: one that is not present is no entry. */
  function Live(e: Entry): Entry {
    if Present(e) then e else NO_ENTRY
  }

  ghost predicate SameLive(mem0: Memory, mem: Memory, dirs: set<int>) {
    forall c, v | c in dirs && 0 <= v < NVPAGES :: Live(Pte(mem, c, v)) == Live(Pte(mem0, c, v))
  }

  lemma NothingNew(lo: nat, mem: Memory, dirs: set<int>, owner: map<int, Role>, d: int)
    ensures SameLive(mem, mem, dirs) && MoreTables(owner, owner, d) && DataKept(mem, owner, mem)
  {
    hide Pte;
  }

  lemma GrowthUndone(mem0: Memory, owner0: map<int, Role>, mem1: Memory, owner1: map<int, Role>, mem: Memory,
                     owner: map<int, Role>, dirs: set<int>,
                     d: int, a: nat, b: nat, g: seq<Given>, p: int)
    requires d in dirs && a + |g| <= b <= KERNVPN && p !in owner0
    requires forall v | a <= v < b :: !Present(Pte(mem0, d, v))
    requires Fresh(mem0, owner0, mem1, owner1 - {p}, dirs, d, a, g)
    requires Unmapped(mem1, owner1, mem, owner, dirs, d, a, b)
    requires forall q | q in owner0 :: !UserIn(owner0[q], d, a, b)
    ensures SameLive(mem0, mem, dirs) && MoreTables(owner0, owner - {p}, d) && DataKept(mem0, owner0, mem)
  {
    hide Pte;
  }

  lemma NoUserThere(lo: nat, mem: Memory, owner: map<int, Role>, dirs: set<int>, d: int, a: nat, b: nat)
    requires Owned(lo, mem, dirs, owner) && d in dirs && b <= KERNVPN
    requires forall v | a <= v < b :: !Present(Pte(mem, d, v))
    ensures forall q | q in owner :: !UserIn(owner[q], d, a, b)
  {
    hide Owned, Pte;
    UnmapNothing(lo, mem, owner, dirs, d, a, b);
  }

  /** A held page outlives the unmapping of user pages. */
  lemma HeldStill(mem0: Memory, owner0: map<int, Role>, mem: Memory, owner: map<int, Role>, dirs: set<int>, d: int,
                  a: nat, b: nat, p: int)
    requires Unmapped(mem0, owner0, mem, owner, dirs, d, a, b) && p in owner0 && owner0[p] == Held
    ensures p in owner && owner[p] == Held
  {
  }

  lemma FreeHeld(lo: nat, mem0: Memory, owner0: map<int, Role>, mem: Memory, free: seq<int>, owner: map<int, Role>,
                 dirs: set<int>, d: int, p: int)
    requires p in owner && owner[p] == Held && p !in owner0
    requires SameLive(mem0, mem, dirs) && DataKept(mem0, owner0, mem)
    requires Owned(lo, mem, dirs, owner) && Conserved(lo, mem, free, owner)
    ensures lo <= p < |mem|
    ensures Owned(lo, mem[p := JunkPage()], dirs, owner - {p})
              && Conserved(lo, mem[p := JunkPage()], [p] + free, owner - {p})
    ensures SameLive(mem0, mem[p := JunkPage()], dirs) && DataKept(mem0, owner0, mem[p := JunkPage()])
  {
    hide Owned, Conserved, Pte;
    Give(lo, mem, dirs, free, owner, p);
  }

  // ---------- small steps of the loops ----------

  /** The skipping step and the step that follows it stay within 32 bits and land on the next region. */
  lemma NoWrap(v: nat)
    requires v < KERNVPN
    ensures SkipTo(v * PGSIZE) == ((v / NENTRIES + 1) * NENTRIES - 1) * PGSIZE
    ensures SkipTo(v * PGSIZE) + PGSIZE <= KERNBASE
  {
  }

  lemma PageBelow(v: nat, sz: nat)
    requires v * PGSIZE < sz <= KERNBASE
    ensures v < Pages(sz) <= KERNVPN && v * PGSIZE / PGSIZE == v
  {
  }

  lemma PagesMonotone(a: nat, b: nat)
    requires a < UINT_LIMIT && b <= KERNBASE
    ensures a >= b ==> Pages(a) >= Pages(b)
    ensures a < b ==> PgRoundUp(a) == Pages(a) * PGSIZE && Pages(a) <= Pages(b)
    ensures Pages(b) <= KERNVPN
    ensures forall v: nat | v * PGSIZE >= b :: v >= Pages(b)
  {
  }

  lemma PagesUpTo(a: nat, b: nat)
    requires a <= b < KERNBASE
    ensures PgRoundUp(a) == Pages(a) * PGSIZE && Pages(a) <= Pages(b) <= KERNVPN
  {
  }

  lemma PagesCover(v: nat, b: nat)
    requires v * PGSIZE >= b && v <= Pages(b)
    ensures v == Pages(b)
  {
  }

  lemma PresentHasTable(lo: nat, mem: Memory, dirs: set<int>, owner: map<int, Role>, d: int, v: nat)
    requires Owned(lo, mem, dirs, owner) && d in dirs && v < NVPAGES
    ensures Present(Pte(mem, d, v)) ==> TableOf(mem, dirs, d, v / NENTRIES) != NONE
  {
  }

  lemma PteInTable(lo: nat, mem: Memory, dirs: set<int>, owner: map<int, Role>, d: int, v: nat)
    requires Owned(lo, mem, dirs, owner) && d in dirs && v < NVPAGES && TableOf(mem, dirs, d, v / NENTRIES) != NONE
    ensures 0 <= TableOf(mem, dirs, d, v / NENTRIES) < |mem|
    ensures Pte(mem, d, v) == mem[TableOf(mem, dirs, d, v / NENTRIES)].words[v % NENTRIES]
  {
    TableOwned(lo, mem, dirs, owner, d, v / NENTRIES);
    DirOwned(lo, mem, dirs, owner, d);
  }

  lemma StillHeld(owner0: map<int, Role>, owner: map<int, Role>, d: int, v: nat, pa: nat)
    requires MoreTables(owner0, owner, d) && RangeHeld(owner0, v, 1, pa)
    ensures RangeHeld(owner, v, 1, pa)
  {
  }

  lemma MapAfterWalk(mem0: Memory, owner0: map<int, Role>, mem1: Memory, owner1: map<int, Role>, mem: Memory,
                     owner: map<int, Role>,
                     dirs: set<int>, d: int, v: nat, e: Entry)
    requires SamePtes(mem0, mem1, dirs) && DataKept(mem0, owner0, mem1) && MoreTables(owner0, owner1, d)
    requires MapProgress(mem1, owner1, mem, owner, dirs, d, v, 1, e.frame, e.flags)
    ensures MapProgress(mem0, owner0, mem, owner, dirs, d, v, 1, e.frame, e.flags)
  {
    hide Pte;
  }

  lemma MapConserved(lo: nat, mem: Memory, mem': Memory, free: seq<int>, owner: map<int, Role>, p: int, d: int, v: nat)
    requires Conserved(lo, mem, free, owner) && |mem'| == |mem| && (v < KERNVPN ==> p in owner)
    ensures Conserved(lo, mem', free, if v < KERNVPN then owner[p := User(d, v)] else owner)
  {
  }

  lemma ProgressParts(mem0: Memory, owner0: map<int, Role>, mem: Memory, owner: map<int, Role>, dirs: set<int>,
                      d: int, a: nat, n: nat, pa: nat, flags: nat)
    requires MapProgress(mem0, owner0, mem, owner, dirs, d, a, n, pa, flags) && d in dirs && a + n < NVPAGES
    ensures OwnersAfter(owner0, owner, d, a, n, pa)
    ensures Pte(mem, d, a + n) == Pte(mem0, d, a + n)
  {
    hide Pte;
  }

  lemma UnmapEmpty(lo: nat, mem: Memory, free: seq<int>, owner: map<int, Role>, dirs: set<int>, d: int, v: nat, hi: nat)
    requires d in dirs && hi <= v && hi <= KERNVPN && Owned(lo, mem, dirs, owner)
    ensures UnmapRange(Store(mem, free), d, v, hi) == Store(mem, free)
    ensures Unmapped(mem, owner, mem, owner, dirs, d, v, hi)
  {
    UnmapNothing(lo, mem, owner, dirs, d, v, hi);
  }

  lemma UnmapRangeDone(mem: Memory, free: seq<int>, d: int, v: nat, hi: nat)
    requires hi <= v && hi <= NVPAGES
    ensures UnmapRange(Store(mem, free), d, v, hi) == Store(mem, free)
  {
  }

  lemma UnmapRangeStep(mem: Memory, free: seq<int>, d: int, v: nat, hi: nat)
    requires v < hi <= NVPAGES
    ensures UnmapRange(Store(mem, free), d, v, hi) == UnmapRange(UnmapOne(Store(mem, free), d, v), d, v + 1, hi)
  {
  }

  lemma UnmapAbsent(lo: nat, mem: Memory, free: seq<int>, owner: map<int, Role>, dirs: set<int>, d: int, v: nat)
    requires Owned(lo, mem, dirs, owner) && d in dirs && v < KERNVPN && !Present(Pte(mem, d, v))
    ensures UnmapOne(Store(mem, free), d, v) == Store(mem, free)
    ensures Unmapped(mem, owner, mem, owner, dirs, d, v, v + 1)
  {
    UnmapNothing(lo, mem, owner, dirs, d, v, v + 1);
  }

  lemma UnmapOneIs(mem: Memory, free: seq<int>, dirs: set<int>, d: int, v: nat, p: int, t: int)
    requires d in dirs && 0 <= d < |mem| && v < NVPAGES && t == TableOf(mem, dirs, d, v / NENTRIES) && 0 <= t < |mem|
    requires Present(Pte(mem, d, v)) && p == Pte(mem, d, v).frame && p < |mem|
    ensures UnmapOne(Store(mem, free), d, v) ==
              Store(PutEntry(mem[p := JunkPage()], t, v % NENTRIES, NO_ENTRY), [p] + free)
  {
  }

  lemma SkipRegion(lo: nat, mem: Memory, free: seq<int>, owner: map<int, Role>, dirs: set<int>, d: int, v: nat, hi: nat)
    requires Owned(lo, mem, dirs, owner) && d in dirs && v < hi <= KERNVPN
               && TableOf(mem, dirs, d, v / NENTRIES) == NONE
    ensures UnmapRange(Store(mem, free), d, v, hi) == UnmapRange(Store(mem, free), d, (v / NENTRIES + 1) * NENTRIES, hi)
    ensures var w := (v / NENTRIES + 1) * NENTRIES;
            Unmapped(mem, owner, mem, owner, dirs, d, v, if w <= hi then w else hi)
  {
    hide Owned, Unmapped;
    var w := (v / NENTRIES + 1) * NENTRIES;
    DirOwned(lo, mem, dirs, owner, d);
    assert forall u | v <= u < w :: u / NENTRIES == v / NENTRIES;
    SkipAbsent(Store(mem, free), d, v, w, hi);
    UnmapNothing(lo, mem, owner, dirs, d, v, if w <= hi then w else hi);
  }

  lemma WalkLinks(lo: nat, mem: Memory, free: seq<int>, owner: map<int, Role>, dirs: set<int>, d: int, i: nat, t: int,
                  e: Entry)
    requires d in dirs && i < NENTRIES && TableOf(mem, dirs, d, i) == NONE
    requires t in owner && owner[t] == Held && 0 <= t < |mem| && Present(e) && e.frame == t
    requires Owned(lo, mem, dirs, owner) && Conserved(lo, mem, free, owner)
    ensures 0 <= d < |mem|
    ensures TableOf(PutEntry(mem[t := ZeroPage()], d, i, e), dirs, d, i) == t
    ensures Owned(lo, PutEntry(mem[t := ZeroPage()], d, i, e), dirs, owner[t := Table(d, i)])
    ensures Conserved(lo, PutEntry(mem[t := ZeroPage()], d, i, e), free, owner[t := Table(d, i)])
    ensures SamePtes(mem, PutEntry(mem[t := ZeroPage()], d, i, e), dirs)
    ensures DataKept(mem, owner - {t}, PutEntry(mem[t := ZeroPage()], d, i, e))
  {
    hide Owned, Pte;
    DirOwned(lo, mem, dirs, owner, d);
    PlainWrite(lo, mem, dirs, owner, t, ZeroPage());
    LinkTable(lo, mem[t := ZeroPage()], dirs, owner, d, i, t, e);
  }

  // ---------- copying an address space ----------

  datatype CopyResult = Copied(dir: int) | CopyFailed | CopyPanic

  function PageAt(mem: Memory, p: int): Page {
    if 0 <= p < |mem| then mem[p] else ZeroPage()
  }

  /** What the parent maps at pages 0 up to n. */
  function Copies(mem: Memory, pgdir: int, n: nat): (g: seq<Given>)
    requires n <= NVPAGES
    ensures |g| == n
    ensures forall v | 0 <= v < n :: g[v] == Given(Pte(mem, pgdir, v).flags, PageAt(mem, Pte(mem, pgdir, v).frame))
  {
    if n == 0 then []
    else Copies(mem, pgdir, n - 1) + [Given(Pte(mem, pgdir, n - 1).flags, PageAt(mem, Pte(mem, pgdir, n - 1).frame))]
  }

  /** Directory d maps each of the parent's first n pages, with its permissions, to a page that was free and holds
      a copy; the rest of d is the kernel part. */
  ghost predicate CopyOf(mem0: Memory, owner0: map<int, Role>, mem: Memory, owner: map<int, Role>, pgdir: int, d: int,
                         n: nat, data: nat)
    requires n <= KERNVPN
  {
    && (forall v | 0 <= v < n ::
          FreshPage(owner0, mem, owner, Pte(mem, d, v), User(d, v),
                    Given(Pte(mem0, pgdir, v).flags, PageAt(mem0, Pte(mem0, pgdir, v).frame))))
    && (forall v | n <= v < NVPAGES :: Pte(mem, d, v) == KernelPte(data, v))
  }

  /** The first n pages of d may be used as those of pgdir. */
  ghost predicate SameAccess(mem0: Memory, pgdir: int, mem: Memory, d: int, n: nat) {
    forall v | 0 <= v < n && v < NVPAGES :: AccessOf(mem, d, v) == AccessOf(mem0, pgdir, v)
  }

  lemma CopiedAccess(lo: nat, mem0: Memory, dirs0: set<int>, owner0: map<int, Role>, mem: Memory, dirs: set<int>,
                     owner: map<int, Role>, pgdir: int, d: int, n: nat, data: nat)
    requires n <= KERNVPN && pgdir in dirs0 && d in dirs
    requires CopyOf(mem0, owner0, mem, owner, pgdir, d, n, data)
    requires Owned(lo, mem0, dirs0, owner0) && Open(mem0, dirs0) && Owned(lo, mem, dirs, owner) && Open(mem, dirs)
    ensures SameAccess(mem0, pgdir, mem, d, n)
  {
    hide Owned, Open, Pte, AccessOf, KernelPte;
    forall v | 0 <= v < n && v < NVPAGES
      ensures AccessOf(mem, d, v) == AccessOf(mem0, pgdir, v)
    {
      AccessIsPte(lo, mem0, dirs0, owner0, pgdir, v);
      AccessIsPte(lo, mem, dirs, owner, d, v);
    }
  }

  lemma PagesUpTo0(sz: nat)
    requires sz <= KERNBASE
    ensures Pages(sz) <= KERNVPN
  {
  }

  lemma KernelBelow(data: nat, v: nat)
    requires v < KERNVPN
    ensures !Present(KernelPte(data, v))
  {
  }

  /** The parent's pages are as they were, wherever the copying has got to. */
  lemma ParentPage(lo: nat, mem0: Memory, owner0: map<int, Role>, dirs: set<int>, mem1: Memory, owner1: map<int, Role>,
                   mem: Memory, owner: map<int, Role>,
                   pgdir: int, d: int, v: nat)
    requires pgdir in dirs && d !in dirs && v < KERNVPN
    requires Owned(lo, mem0, dirs, owner0)
    requires SamePtes(mem0, mem1, dirs) && DataKept(mem0, owner0, mem1) && Gained(owner0, owner1, d)
    requires exists g :: |g| == v && Fresh(mem1, owner1, mem, owner, dirs + {d}, d, 0, g)
    ensures Pte(mem, pgdir, v) == Pte(mem0, pgdir, v)
    ensures Present(Pte(mem0, pgdir, v)) ==> Pte(mem0, pgdir, v).frame < |mem| == |mem0|
                                             && mem[Pte(mem0, pgdir, v).frame]
                                                  == PageAt(mem0, Pte(mem0, pgdir, v).frame)
    ensures Present(Pte(mem0, pgdir, v)) ==> WithP(Pte(mem0, pgdir, v).flags) == Pte(mem0, pgdir, v).flags
  {
    hide Owned, Pte;
    UserIsPte(mem0, dirs, pgdir, v);
    if Present(Pte(mem0, pgdir, v)) {
      OccupantOwned(lo, mem0, dirs, owner0, User(pgdir, v));
    }
  }

  lemma CopyGained(mem0: Memory, owner0: map<int, Role>, dirs: set<int>, mem1: Memory, owner1: map<int, Role>,
                   mem: Memory, owner: map<int, Role>,
                   d: int, g: seq<Given>)
    requires d !in dirs && SamePtes(mem0, mem1, dirs) && DataKept(mem0, owner0, mem1) && Gained(owner0, owner1, d)
    requires Fresh(mem1, owner1, mem, owner, dirs + {d}, d, 0, g)
    ensures SamePtes(mem0, mem, dirs) && DataKept(mem0, owner0, mem) && Gained(owner0, owner, d)
  {
    hide Pte;
  }

  lemma CopyDone(mem0: Memory, owner0: map<int, Role>, mem1: Memory, owner1: map<int, Role>, mem: Memory,
                 owner: map<int, Role>, dirs: set<int>,
                 pgdir: int, d: int, n: nat, data: nat)
    requires d in dirs && n <= KERNVPN && Gained(owner0, owner1, d)
    requires forall v | 0 <= v < NVPAGES :: Pte(mem1, d, v) == KernelPte(data, v)
    requires Fresh(mem1, owner1, mem, owner, dirs, d, 0, Copies(mem0, pgdir, n))
    ensures CopyOf(mem0, owner0, mem, owner, pgdir, d, n, data)
  {
    hide Pte, KernelPte;
    var g := Copies(mem0, pgdir, n);
    forall v | 0 <= v < n
      ensures FreshPage(owner0, mem, owner, Pte(mem, d, v), User(d, v),
                Given(Pte(mem0, pgdir, v).flags, PageAt(mem0, Pte(mem0, pgdir, v).frame)))
    {
      assert FreshPage(owner1, mem, owner, Pte(mem, d, v), User(d, v), g[v - 0]);
    }
  }
}

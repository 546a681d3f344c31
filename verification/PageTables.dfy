/** Physical pages, two-level page tables and page ownership: the state that kalloc.c and vm.c work
    on. Addresses are page numbers; a 32-bit entry is kept as its page number and its low 12 bits. */
module PageTables {

  const NENTRIES: nat := 1024
  const NVPAGES: nat := 0x10_0000
  const KERNVPN: nat := 0x8_0000
  const PTE_P: nat := 1
  const PTE_W: nat := 2
  const PTE_U: nat := 4

  datatype Entry = Entry(frame: nat, flags: nat)

  type Words = s: seq<Entry> | |s| == NENTRIES witness seq(NENTRIES, _ => Entry(0, 0))

  datatype Page = Page(words: Words)

  type Memory = seq<Page>

  const NO_ENTRY: Entry := Entry(0, 0)

  function ZeroPage(): (z: Page)
    ensures forall j | 0 <= j < NENTRIES :: z.words[j] == NO_ENTRY
  {
    Page(seq(NENTRIES, _ => NO_ENTRY))
  }

  /** The junk that `kfree` fills a page with (every byte 1). */
  function JunkPage(): (z: Page) {
    Page(seq(NENTRIES, _ => Entry(0x1010, 0x101)))
  }

  predicate Present(e: Entry) {
    e.flags % 2 == 1
  }

  /** No page. */
  const NONE: int := -1

  /** The page an entry refers to, if it is present. */
  function Frame(e: Entry): int {
    if Present(e) then e.frame else NONE
  }

  /** What a page is used for. */
  datatype Role =
    | Dir(d: int)
    | Table(d: int, i: nat)
    | User(d: int, v: nat)
    | Held

  predicate ValidRole(r: Role) {
    match r
    case Dir(_) => true
    case Table(_, i) => i < NENTRIES
    case User(_, v) => v < KERNVPN
    case Held => false
  }

  /** The page in a role, if any. */
  function Occupant(mem: Memory, dirs: set<int>, r: Role): int
    requires ValidRole(r)
  {
    match r
    case Dir(d) => if d in dirs then d else NONE
    case Table(d, i) => TableOf(mem, dirs, d, i)
    case User(d, v) =>
      var t := TableOf(mem, dirs, d, v / NENTRIES);
      if 0 <= t < |mem| then Frame(mem[t].words[v % NENTRIES]) else NONE
  }

  function TableOf(mem: Memory, dirs: set<int>, d: int, i: nat): int
    requires i < NENTRIES
  {
    if d in dirs && 0 <= d < |mem| then Frame(mem[d].words[i]) else NONE
  }

  /** Every page in a role is owned by that role alone, and owned pages are managed pages. */
  ghost predicate Owned(lo: nat, mem: Memory, dirs: set<int>, owner: map<int, Role>) {
    && 0 < lo && NONE !in dirs
    && (forall r | ValidRole(r) && Occupant(mem, dirs, r) != NONE ::
          Occupant(mem, dirs, r) in owner && owner[Occupant(mem, dirs, r)] == r)
    && (forall p | p in owner :: lo <= p < |mem|)
    && (forall p | p in owner && owner[p] != Held :: ValidRole(owner[p]) && Occupant(mem, dirs, owner[p]) == p)
  }

  /** Each managed page is either on the free list, once, or owned. */
  ghost predicate Conserved(lo: nat, mem: Memory, free: seq<int>, owner: map<int, Role>) {
    && (forall i, j | 0 <= i < j < |free| :: free[i] != free[j])
    && (forall i | 0 <= i < |free| :: lo <= free[i] < |mem| && free[i] !in owner)
    && (forall p | lo <= p < |mem| && p !in owner :: p in free)
  }

  // ---------- what a page write can disturb ----------

  /** Writing a page that is neither a directory nor a table in use disturbs no role. */
  lemma PlainWrite(lo: nat, mem: Memory, dirs: set<int>, owner: map<int, Role>, p: int, x: Page)
    requires Owned(lo, mem, dirs, owner) && 0 <= p < |mem|
    requires p in owner ==> owner[p].User? || owner[p].Held?
    ensures forall r | ValidRole(r) :: Occupant(mem[p := x], dirs, r) == Occupant(mem, dirs, r)
    ensures forall d, v | d in dirs && 0 <= v < NVPAGES :: Pte(mem[p := x], d, v) == Pte(mem, d, v)
    ensures Owned(lo, mem[p := x], dirs, owner)
  {
    var m := mem[p := x];
    forall d | d in dirs
      ensures d != p && 0 <= d < |mem|
    {
      DirOwned(lo, mem, dirs, owner, d);
    }
    forall d, i | d in dirs && 0 <= i < NENTRIES && TableOf(mem, dirs, d, i) != NONE
      ensures TableOf(mem, dirs, d, i) != p
    {
      TableOwned(lo, mem, dirs, owner, d, i);
    }
    forall r | ValidRole(r)
      ensures Occupant(m, dirs, r) == Occupant(mem, dirs, r)
    {
    }
    forall d, v | d in dirs && 0 <= v < NVPAGES
      ensures Pte(m, d, v) == Pte(mem, d, v)
    {
      assert TableOf(m, dirs, d, v / NENTRIES) == TableOf(mem, dirs, d, v / NENTRIES);
    }
    OwnedFrame(lo, mem, m, dirs, owner);
  }

  lemma DirOwned(lo: nat, mem: Memory, dirs: set<int>, owner: map<int, Role>, d: int)
    requires Owned(lo, mem, dirs, owner) && d in dirs
    ensures d in owner && owner[d] == Dir(d) && lo <= d < |mem|
  {
    assert ValidRole(Dir(d)) && Occupant(mem, dirs, Dir(d)) == d;
  }

  lemma TableOwned(lo: nat, mem: Memory, dirs: set<int>, owner: map<int, Role>, d: int, i: nat)
    requires Owned(lo, mem, dirs, owner) && i < NENTRIES && TableOf(mem, dirs, d, i) != NONE
    ensures var t := TableOf(mem, dirs, d, i); t in owner && owner[t] == Table(d, i) && lo <= t < |mem|
  {
    assert ValidRole(Table(d, i)) && Occupant(mem, dirs, Table(d, i)) == TableOf(mem, dirs, d, i);
  }

  lemma OwnedFrame(lo: nat, mem: Memory, mem': Memory, dirs: set<int>, owner: map<int, Role>)
    requires Owned(lo, mem, dirs, owner) && |mem'| == |mem|
    requires forall r | ValidRole(r) :: Occupant(mem', dirs, r) == Occupant(mem, dirs, r)
    ensures Owned(lo, mem', dirs, owner)
  {
    hide Occupant;
  }

  /** The page table entry for virtual page v, NO_ENTRY when its table is absent. */
  function Pte(mem: Memory, d: int, v: nat): Entry
    requires v < NVPAGES
  {
    if !(0 <= d < |mem|) then NO_ENTRY else
    var t := Frame(mem[d].words[v / NENTRIES]);
    if !(0 <= t < |mem|) then NO_ENTRY else mem[t].words[v % NENTRIES]
  }

  // ---------- what the hardware allows ----------

  /** What an access to a virtual page may do. */
  datatype Access = Access(present: bool, write: bool, user: bool)

  const NO_ACCESS: Access := Access(false, false, false)

  predicate Writable(e: Entry) {
    e.flags / 2 % 2 == 1
  }

  predicate ForUser(e: Entry) {
    e.flags / 4 % 2 == 1
  }

  /** What one entry allows. */
  function Allows(e: Entry): Access {
    if Present(e) then Access(true, Writable(e), ForUser(e)) else NO_ACCESS
  }

  lemma LowBit(q: nat, r: nat)
    requires r < 2
    ensures (2 * q + r) / 2 == q && (2 * q + r) % 2 == r
  {
  }

  lemma LowBits(q: nat, r: nat)
    requires r < 4
    ensures (4 * q + r) / 4 == q
  {
  }

  /** The three low bits decide, whatever the others are. */
  lemma FlagBits(frame: nat, present: bool, write: bool, user: bool, others: nat)
    ensures var bits := (if present then 1 else 0) + (if write then 2 else 0) + (if user then 4 else 0);
            Allows(Entry(frame, bits + 8 * others)) == if present then Access(true, write, user) else NO_ACCESS
  {
    var p, w, u := if present then 1 else 0, if write then 1 else 0, if user then 1 else 0;
    var k := 2 * others + u;
    LowBit(2 * k + w, p);
    LowBit(k, w);
    LowBits(k, 2 * w + p);
    LowBit(others, u);
  }

  /** What the hardware allows for virtual page v of directory d: what both levels allow. */
  function AccessOf(mem: Memory, d: int, v: nat): Access
    requires v < NVPAGES
  {
    if !(0 <= d < |mem|) then NO_ACCESS else
    var a, b := Allows(mem[d].words[v / NENTRIES]), Allows(Pte(mem, d, v));
    if a.present && b.present then Access(true, a.write && b.write, a.user && b.user) else NO_ACCESS
  }

  /** The entries of the directories allow everything, so that the tables decide. */
  ghost predicate Open(mem: Memory, dirs: set<int>) {
    forall d, i | d in dirs && 0 <= d < |mem| && 0 <= i < NENTRIES && Present(mem[d].words[i]) ::
      Writable(mem[d].words[i]) && ForUser(mem[d].words[i])
  }

  lemma AccessIsPte(lo: nat, mem: Memory, dirs: set<int>, owner: map<int, Role>, d: int, v: nat)
    requires Owned(lo, mem, dirs, owner) && Open(mem, dirs) && d in dirs && v < NVPAGES
    ensures AccessOf(mem, d, v) == Allows(Pte(mem, d, v))
  {
    hide Owned;
    DirOwned(lo, mem, dirs, owner, d);
  }

  lemma OpenElsewhere(mem: Memory, dirs: set<int>, p: int, x: Page)
    requires Open(mem, dirs) && 0 <= p < |mem| && p !in dirs
    ensures Open(mem[p := x], dirs)
  {
  }

  /** Writing a page that is not a directory. */
  lemma OpenPlain(lo: nat, mem: Memory, dirs: set<int>, owner: map<int, Role>, p: int, x: Page)
    requires Open(mem, dirs) && Owned(lo, mem, dirs, owner) && 0 <= p < |mem| && (p in owner ==> !owner[p].Dir?)
    ensures p !in dirs && Open(mem[p := x], dirs)
  {
    hide Owned, Open;
    if p in dirs {
      DirOwned(lo, mem, dirs, owner, p);
    }
    OpenElsewhere(mem, dirs, p, x);
  }

  lemma OpenLink(mem: Memory, dirs: set<int>, d: int, i: nat, e: Entry)
    requires Open(mem, dirs) && 0 <= d < |mem| && i < NENTRIES && Writable(e) && ForUser(e)
    ensures Open(PutEntry(mem, d, i, e), dirs)
  {
  }

  lemma OpenNew(mem: Memory, dirs: set<int>, d: int)
    requires Open(mem, dirs) && 0 <= d < |mem|
    ensures Open(mem[d := ZeroPage()], dirs + {d})
  {
  }

  lemma OpenLess(mem: Memory, dirs: set<int>, d: int)
    requires Open(mem, dirs)
    ensures Open(mem, dirs - {d})
  {
  }

  // ---------- filling and emptying roles ----------

  /** A held page moves into an empty role. */
  lemma FillRole(lo: nat, mem: Memory, dirs: set<int>, owner: map<int, Role>, mem': Memory, dirs': set<int>, r0: Role,
                 p: int)
    requires Owned(lo, mem, dirs, owner) && |mem'| == |mem| && NONE !in dirs'
    requires ValidRole(r0) && p in owner && owner[p] == Held
    requires Occupant(mem, dirs, r0) == NONE && Occupant(mem', dirs', r0) == p
    requires forall r | ValidRole(r) && r != r0 :: Occupant(mem', dirs', r) == Occupant(mem, dirs, r)
    ensures Owned(lo, mem', dirs', owner[p := r0])
  {
    hide Occupant;
    forall q | q in owner && q != p && owner[q] != Held
      ensures owner[q] != r0
    {
      assert Occupant(mem, dirs, owner[q]) == q;
    }
  }

  /** A page leaves its role and is held. */
  lemma EmptyRole(lo: nat, mem: Memory, dirs: set<int>, owner: map<int, Role>, mem': Memory, r0: Role)
    requires Owned(lo, mem, dirs, owner) && |mem'| == |mem|
    requires ValidRole(r0) && Occupant(mem, dirs, r0) != NONE && Occupant(mem', dirs, r0) == NONE
    requires forall r | ValidRole(r) && r != r0 :: Occupant(mem', dirs, r) == Occupant(mem, dirs, r)
    ensures Owned(lo, mem', dirs, owner[Occupant(mem, dirs, r0) := Held])
  {
    hide Occupant;
  }

  function PutEntry(mem: Memory, t: int, j: nat, e: Entry): (m: Memory)
    requires 0 <= t < |mem| && j < NENTRIES
    ensures |m| == |mem|
  {
    mem[t := Page(mem[t].words[j := e])]
  }

  /** Writing entry j of the table of region i of directory d touches virtual page i * 1024 + j only. */
  lemma TableWrite(lo: nat, mem: Memory, dirs: set<int>, owner: map<int, Role>, d: int, i: nat, j: nat, e: Entry)
    requires Owned(lo, mem, dirs, owner) && d in dirs && i < NENTRIES && j < NENTRIES
               && TableOf(mem, dirs, d, i) != NONE
    ensures var t := TableOf(mem, dirs, d, i);
            && 0 <= t < |mem|
            && var m := PutEntry(mem, t, j, e);
            && (forall r | ValidRole(r) && r != User(d, i * NENTRIES + j) ::
                 Occupant(m, dirs, r) == Occupant(mem, dirs, r))
            && (forall c, v | c in dirs && 0 <= v < NVPAGES && !(c == d && v == i * NENTRIES + j) ::
                 Pte(m, c, v) == Pte(mem, c, v))
            && Pte(m, d, i * NENTRIES + j) == e
            && (i * NENTRIES + j < KERNVPN ==> Occupant(m, dirs, User(d, i * NENTRIES + j)) == Frame(e))
  {
    hide Owned;
    var t := TableOf(mem, dirs, d, i);
    TableOwned(lo, mem, dirs, owner, d, i);
    var m := PutEntry(mem, t, j, e);
    DirsApart(lo, mem, dirs, owner, t, Table(d, i));
    forall c, k | c in dirs && 0 <= k < NENTRIES && TableOf(mem, dirs, c, k) == t
      ensures c == d && k == i
    {
      TableOwned(lo, mem, dirs, owner, c, k);
    }
    assert forall c, k | c in dirs && 0 <= k < NENTRIES :: TableOf(m, dirs, c, k) == TableOf(mem, dirs, c, k);
    forall r | ValidRole(r) && r != User(d, i * NENTRIES + j)
      ensures Occupant(m, dirs, r) == Occupant(mem, dirs, r)
    {
    }
    forall c, v | c in dirs && 0 <= v < NVPAGES && !(c == d && v == i * NENTRIES + j)
      ensures Pte(m, c, v) == Pte(mem, c, v)
    {
      assert TableOf(m, dirs, c, v / NENTRIES) == TableOf(mem, dirs, c, v / NENTRIES);
    }
    assert (i * NENTRIES + j) / NENTRIES == i && (i * NENTRIES + j) % NENTRIES == j;
  }

  lemma DirsApart(lo: nat, mem: Memory, dirs: set<int>, owner: map<int, Role>, p: int, r: Role)
    requires Owned(lo, mem, dirs, owner) && p in owner && owner[p] == r && !r.Dir?
    ensures forall d | d in dirs :: d != p && 0 <= d < |mem|
  {
    forall d | d in dirs
      ensures d != p && 0 <= d < |mem|
    {
      DirOwned(lo, mem, dirs, owner, d);
    }
  }

  /** A held page becomes user page v of directory d. */
  lemma MapUser(lo: nat, mem: Memory, dirs: set<int>, owner: map<int, Role>, d: int, v: nat, e: Entry)
    requires Owned(lo, mem, dirs, owner) && d in dirs && v < KERNVPN && TableOf(mem, dirs, d, v / NENTRIES) != NONE
    requires !Present(Pte(mem, d, v)) && Present(e) && e.frame in owner && owner[e.frame] == Held
    ensures var t := TableOf(mem, dirs, d, v / NENTRIES);
            0 <= t < |mem| && Owned(lo, PutEntry(mem, t, v % NENTRIES, e), dirs, owner[e.frame := User(d, v)])
  {
    hide Owned;
    TableOwned(lo, mem, dirs, owner, d, v / NENTRIES);
    DirOwned(lo, mem, dirs, owner, d);
    TableWrite(lo, mem, dirs, owner, d, v / NENTRIES, v % NENTRIES, e);
    var t := TableOf(mem, dirs, d, v / NENTRIES);
    assert v / NENTRIES * NENTRIES + v % NENTRIES == v;
    NoZeroDir(lo, mem, dirs, owner);
    FillRole(lo, mem, dirs, owner, PutEntry(mem, t, v % NENTRIES, e), dirs, User(d, v), e.frame);
  }

  lemma NoZeroDir(lo: nat, mem: Memory, dirs: set<int>, owner: map<int, Role>)
    requires Owned(lo, mem, dirs, owner)
    ensures NONE !in dirs && 0 < lo && NONE !in owner
  {
  }

  /** Clearing the entry of user page v turns its page into a held one. */
  lemma UnmapUser(lo: nat, mem: Memory, dirs: set<int>, owner: map<int, Role>, d: int, v: nat)
    requires Owned(lo, mem, dirs, owner) && d in dirs && v < KERNVPN && Occupant(mem, dirs, User(d, v)) != NONE
    ensures var t := TableOf(mem, dirs, d, v / NENTRIES);
            var p := Occupant(mem, dirs, User(d, v));
            && 0 <= t < |mem| && p in owner && owner[p] == User(d, v) && lo <= p < |mem|
            && Owned(lo, PutEntry(mem, t, v % NENTRIES, NO_ENTRY), dirs, owner[p := Held])
  {
    hide Owned;
    var t := TableOf(mem, dirs, d, v / NENTRIES);
    var p := Occupant(mem, dirs, User(d, v));
    OccupantOwned(lo, mem, dirs, owner, User(d, v));
    TableOwned(lo, mem, dirs, owner, d, v / NENTRIES);
    TableWrite(lo, mem, dirs, owner, d, v / NENTRIES, v % NENTRIES, NO_ENTRY);
    assert v / NENTRIES * NENTRIES + v % NENTRIES == v;
    EmptyRole(lo, mem, dirs, owner, PutEntry(mem, t, v % NENTRIES, NO_ENTRY), User(d, v));
  }

  lemma OccupantOwned(lo: nat, mem: Memory, dirs: set<int>, owner: map<int, Role>, r: Role)
    requires Owned(lo, mem, dirs, owner) && ValidRole(r) && Occupant(mem, dirs, r) != NONE
    ensures Occupant(mem, dirs, r) in owner && owner[Occupant(mem, dirs, r)] == r
              && lo <= Occupant(mem, dirs, r) < |mem|
  {
    hide Occupant;
  }

  // ---------- tables and directories ----------

  /** Writing entry i of directory d touches region i of d only. */
  lemma DirWrite(lo: nat, mem: Memory, dirs: set<int>, owner: map<int, Role>, d: int, i: nat, e: Entry)
    requires Owned(lo, mem, dirs, owner) && d in dirs && i < NENTRIES
    ensures 0 <= d < |mem|
    ensures forall c, k | 0 <= k < NENTRIES && !(c == d && k == i) ::
              TableOf(PutEntry(mem, d, i, e), dirs, c, k) == TableOf(mem, dirs, c, k)
    ensures TableOf(PutEntry(mem, d, i, e), dirs, d, i) == Frame(e)
    ensures forall p | 0 <= p < |mem| && p != d :: PutEntry(mem, d, i, e)[p] == mem[p]
  {
    DirOwned(lo, mem, dirs, owner, d);
  }

  /** A zeroed, held page becomes the table of an absent region: no mapping changes. */
  lemma LinkTable(lo: nat, mem: Memory, dirs: set<int>, owner: map<int, Role>, d: int, i: nat, t: int, e: Entry)
    requires Owned(lo, mem, dirs, owner) && d in dirs && i < NENTRIES && TableOf(mem, dirs, d, i) == NONE
    requires t in owner && owner[t] == Held && 0 <= t < |mem| && mem[t] == ZeroPage() && Present(e) && e.frame == t
    ensures 0 <= d < |mem| && d != t
    ensures forall c, v | c in dirs && 0 <= v < NVPAGES :: Pte(PutEntry(mem, d, i, e), c, v) == Pte(mem, c, v)
    ensures Owned(lo, PutEntry(mem, d, i, e), dirs, owner[t := Table(d, i)])
  {
    hide Owned;
    DirOwned(lo, mem, dirs, owner, d);
    DirWrite(lo, mem, dirs, owner, d, i, e);
    NoZeroDir(lo, mem, dirs, owner);
    DirsApart(lo, mem, dirs, owner, t, Held);
    var m := PutEntry(mem, d, i, e);
    TablesApart(lo, mem, dirs, owner, d);
    forall r | ValidRole(r) && r != Table(d, i)
      ensures Occupant(m, dirs, r) == Occupant(mem, dirs, r)
    {
      if r.User? {
        assert TableOf(m, dirs, r.d, r.v / NENTRIES) == TableOf(mem, dirs, r.d, r.v / NENTRIES)
          || (r.d == d && r.v / NENTRIES == i);
      }
    }
    forall c, v | c in dirs && 0 <= v < NVPAGES
      ensures Pte(m, c, v) == Pte(mem, c, v)
    {
      assert TableOf(m, dirs, c, v / NENTRIES) == TableOf(mem, dirs, c, v / NENTRIES) || (c == d && v / NENTRIES == i);
    }
    FillRole(lo, mem, dirs, owner, m, dirs, Table(d, i), t);
  }

  lemma TablesApart(lo: nat, mem: Memory, dirs: set<int>, owner: map<int, Role>, d: int)
    requires Owned(lo, mem, dirs, owner) && d in dirs
    ensures forall c, k | 0 <= k < NENTRIES && TableOf(mem, dirs, c, k) != NONE :: TableOf(mem, dirs, c, k) != d
  {
    hide Owned;
    DirOwned(lo, mem, dirs, owner, d);
    forall c, k | 0 <= k < NENTRIES && TableOf(mem, dirs, c, k) != NONE
      ensures TableOf(mem, dirs, c, k) != d
    {
      TableOwned(lo, mem, dirs, owner, c, k);
    }
  }

  /** A zeroed, held page becomes a page directory that maps nothing. */
  lemma AddDir(lo: nat, mem: Memory, dirs: set<int>, owner: map<int, Role>, d: int)
    requires Owned(lo, mem, dirs, owner) && d in owner && owner[d] == Held && 0 <= d < |mem| && mem[d] == ZeroPage()
    ensures d !in dirs
    ensures Owned(lo, mem, dirs + {d}, owner[d := Dir(d)])
    ensures forall v | 0 <= v < NVPAGES :: Pte(mem, d, v) == NO_ENTRY
  {
    hide Owned;
    NoZeroDir(lo, mem, dirs, owner);
    DirsApart(lo, mem, dirs, owner, d, Held);
    assert forall k | 0 <= k < NENTRIES :: TableOf(mem, dirs + {d}, d, k) == NONE == TableOf(mem, dirs, d, k);
    forall r | ValidRole(r) && r != Dir(d)
      ensures Occupant(mem, dirs + {d}, r) == Occupant(mem, dirs, r)
    {
    }
    FillRole(lo, mem, dirs, owner, mem, dirs + {d}, Dir(d), d);
  }

  /** The role belongs to directory d. */
  predicate Of(r: Role, d: int) {
    (r.Dir? || r.Table? || r.User?) && r.d == d
  }

  /** Ownership once directory d is given up: its pages are held. */
  function Released(owner: map<int, Role>, d: int): map<int, Role> {
    map p | p in owner :: if Of(owner[p], d) then Held else owner[p]
  }

  lemma DropDir(lo: nat, mem: Memory, dirs: set<int>, owner: map<int, Role>, d: int)
    requires Owned(lo, mem, dirs, owner) && d in dirs
    ensures Owned(lo, mem, dirs - {d}, Released(owner, d))
  {
    var owner' := Released(owner, d);
    forall r | ValidRole(r) && !Of(r, d)
      ensures Occupant(mem, dirs - {d}, r) == Occupant(mem, dirs, r)
    {
    }
    forall r | ValidRole(r) && Of(r, d)
      ensures Occupant(mem, dirs - {d}, r) == NONE
    {
    }
    DropRoles(lo, mem, dirs, dirs - {d}, owner, d);
  }

  lemma DropRoles(lo: nat, mem: Memory, dirs: set<int>, dirs': set<int>, owner: map<int, Role>, d: int)
    requires Owned(lo, mem, dirs, owner) && NONE !in dirs'
    requires forall r | ValidRole(r) && !Of(r, d) :: Occupant(mem, dirs', r) == Occupant(mem, dirs, r)
    requires forall r | ValidRole(r) && Of(r, d) :: Occupant(mem, dirs', r) == NONE
    ensures Owned(lo, mem, dirs', Released(owner, d))
  {
    hide Occupant;
  }

  // ---------- held pages and the free list ----------

  /** A page taken off the free list is held. */
  lemma Take(lo: nat, mem: Memory, dirs: set<int>, free: seq<int>, owner: map<int, Role>)
    requires Owned(lo, mem, dirs, owner) && Conserved(lo, mem, free, owner) && free != []
    ensures free[0] !in owner && lo <= free[0] < |mem|
    ensures Owned(lo, mem, dirs, owner[free[0] := Held]) && Conserved(lo, mem, free[1..], owner[free[0] := Held])
  {
    hide Occupant;
    forall p | lo <= p < |mem| && p !in owner && p != free[0]
      ensures p in free[1..]
    {
    }
  }

  /** A held page is put on the free list. */
  lemma Give(lo: nat, mem: Memory, dirs: set<int>, free: seq<int>, owner: map<int, Role>, p: int)
    requires Owned(lo, mem, dirs, owner) && Conserved(lo, mem, free, owner) && p in owner && owner[p] == Held
    ensures lo <= p < |mem|
    ensures Owned(lo, mem[p := JunkPage()], dirs, owner - {p})
    ensures Conserved(lo, mem[p := JunkPage()], [p] + free, owner - {p})
    ensures forall d, v | d in dirs && 0 <= v < NVPAGES :: Pte(mem[p := JunkPage()], d, v) == Pte(mem, d, v)
  {
    hide Occupant, Pte;
    PlainWrite(lo, mem, dirs, owner, p, JunkPage());
    forall q | lo <= q < |mem| && q !in owner - {p}
      ensures q in [p] + free
    {
    }
  }

  /** The same owners leave the same pages free. */
  lemma SameFree(lo: nat, mem: Memory, mem': Memory, free: seq<int>, free': seq<int>, owner: map<int, Role>)
    requires |mem'| == |mem| && Conserved(lo, mem, free, owner) && Conserved(lo, mem', free', owner)
    ensures multiset(free') == multiset(free)
  {
    forall p
      ensures multiset(free')[p] == multiset(free)[p]
    {
      Once(free, p);
      Once(free', p);
      if p in free || p in free' {
        assert lo <= p < |mem| && p !in owner;
      }
    }
  }

  lemma {:induction false} Once(s: seq<int>, p: int)
    requires forall i, j | 0 <= i < j < |s| :: s[i] != s[j]
    ensures multiset(s)[p] == if p in s then 1 else 0
  {
    if s != [] {
      Once(s[1..], p);
      assert s == [s[0]] + s[1..];
    }
  }

  lemma UserIsPte(mem: Memory, dirs: set<int>, d: int, v: nat)
    requires d in dirs && v < KERNVPN
    ensures Occupant(mem, dirs, User(d, v)) == Frame(Pte(mem, d, v))
  {
  }
}

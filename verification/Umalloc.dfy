/** The Kernighan and Ritchie allocator of umalloc.c. Memory is indexed by header-sized units; the
    free list is a circular list through the headers, in address order, starting at `base`. */
module Umalloc {
  import opened Common

  const UNIT: nat := 8
  const NULL: nat := 0
  const BASE: nat := 1
  const INT_MAX: nat := 0x7FFF_FFFF

  datatype Header = Header(ptr: nat, size: nat)
  type Mem = map<nat, Header>

  // ---------- the free list ----------

  /** The address that follows position i on the circular list. */
  function Succ(chain: seq<nat>, i: nat): nat
    requires i < |chain|
  {
    if i + 1 < |chain| then chain[i + 1] else chain[0]
  }

  ghost predicate Increasing(chain: seq<nat>) {
    forall i, j | 0 <= i < j < |chain| :: chain[i] < chain[j]
  }

  /** The headers of `chain` form one address-ordered cycle that starts at base. */
  ghost predicate Linked(mem: Mem, chain: seq<nat>) {
    && chain != [] && chain[0] == BASE && Increasing(chain)
    && (forall i | 0 <= i < |chain| :: chain[i] in mem)
    && (forall i {:trigger Succ(chain, i)} | 0 <= i < |chain| :: mem[chain[i]].ptr == Succ(chain, i))
    && mem[BASE].size == 0
  }

  /** No free block outside x touches the next one. */
  ghost predicate ApartBut(mem: Mem, chain: seq<nat>, x: set<nat>)
    requires forall i | 0 <= i < |chain| :: chain[i] in mem
  {
    forall i {:trigger Succ(chain, i)} | 1 <= i < |chain| - 1 && chain[i] !in x ::
      chain[i] + mem[chain[i]].size != Succ(chain, i)
  }

  /** No two free blocks touch. */
  ghost predicate Apart(mem: Mem, chain: seq<nat>)
    requires forall i | 0 <= i < |chain| :: chain[i] in mem
  {
    ApartBut(mem, chain, {})
  }

  function Insert<T>(s: seq<T>, k: nat, x: T): (r: seq<T>)
    requires k <= |s|
  {
    s[..k] + [x] + s[k..]
  }

  ghost function FreeSet(chain: seq<nat>): set<nat> {
    set i | 1 <= i < |chain| :: chain[i]
  }

  // ---------- the arena ----------

  ghost predicate InBlock(mem: Mem, a: nat, u: nat) {
    a in mem && a <= u < a + mem[a].size
  }

  /** The blocks tile the arena: `owner` maps each unit to the one block that contains it. */
  ghost predicate Tiled(mem: Mem, blocks: set<nat>, owner: map<nat, nat>) {
    && (forall a | a in blocks :: a in mem && a > BASE && mem[a].size > 0)
    && (forall a, u | a in blocks && InBlock(mem, a, u) :: u in owner && owner[u] == a)
    && (forall u | u in owner :: owner[u] in blocks && InBlock(mem, owner[u], u))
  }

  /** The whole invariant once the list has been set up. */
  ghost predicate HeapInv(mem: Mem, chain: seq<nat>, live: set<nat>, owner: map<nat, nat>) {
    && Linked(mem, chain)
    && FreeSet(chain) !! live
    && Tiled(mem, FreeSet(chain) + live, owner)
  }

  /** Two blocks of a tiling have no unit in common. */
  lemma BlocksDisjoint(mem: Mem, blocks: set<nat>, owner: map<nat, nat>, a: nat, b: nat)
    requires Tiled(mem, blocks, owner) && a in blocks && b in blocks && a < b
    ensures a + mem[a].size <= b
  {
    if a + mem[a].size > b {
      assert InBlock(mem, a, b) && InBlock(mem, b, b);
    }
  }

  lemma InFreeSet(chain: seq<nat>, i: nat)
    requires 1 <= i < |chain|
    ensures chain[i] in FreeSet(chain)
  {
  }

  // ---------- linking ----------

  /** Putting bp between positions t and t + 1. */
  lemma InsertLinked(mem: Mem, chain: seq<nat>, t: nat, bp: nat)
    requires Linked(mem, chain) && t < |chain| && bp in mem
    requires chain[t] < bp && (t + 1 < |chain| ==> bp < chain[t + 1])
    ensures bp !in chain
    ensures var m1 := mem[bp := Header(Succ(chain, t), mem[bp].size)];
            Linked(m1[chain[t] := Header(bp, m1[chain[t]].size)], Insert(chain, t + 1, bp))
  {
    forall i | 0 <= i < |chain|
      ensures chain[i] != bp
    {
    }
    var m1 := mem[bp := Header(Succ(chain, t), mem[bp].size)];
    var m := m1[chain[t] := Header(bp, m1[chain[t]].size)];
    var c := Insert(chain, t + 1, bp);
    forall i | 0 <= i < |c|
      ensures c[i] in m && m[c[i]].ptr == Succ(c, i)
    {
      if i <= t {
        assert c[i] == chain[i] && mem[chain[i]].ptr == Succ(chain, i);
      } else if i > t + 1 {
        assert c[i] == chain[i - 1] && mem[chain[i - 1]].ptr == Succ(chain, i - 1);
      }
    }
    InsertIncreasing(chain, t, bp);
  }

  lemma InsertIncreasing(chain: seq<nat>, t: nat, bp: nat)
    requires Increasing(chain) && t < |chain|
    requires chain[t] < bp && (t + 1 < |chain| ==> bp < chain[t + 1])
    ensures Increasing(Insert(chain, t + 1, bp))
  {
    var c := Insert(chain, t + 1, bp);
    forall i, j | 0 <= i < j < |c|
      ensures c[i] < c[j]
    {
      assert c[i] == if i <= t then chain[i] else if i == t + 1 then bp else chain[i - 1];
      assert c[j] == if j <= t then chain[j] else if j == t + 1 then bp else chain[j - 1];
    }
  }

  lemma InsertFreeSet(chain: seq<nat>, k: nat, x: nat)
    requires 1 <= k <= |chain|
    ensures FreeSet(Insert(chain, k, x)) == FreeSet(chain) + {x}
  {
    var c := Insert(chain, k, x);
    forall a | a in FreeSet(chain)
      ensures a in FreeSet(c)
    {
      var i :| 1 <= i < |chain| && chain[i] == a;
      assert c[if i < k then i else i + 1] == a;
    }
    forall a | a in FreeSet(c)
      ensures a in FreeSet(chain) + {x}
    {
      var i :| 1 <= i < |c| && c[i] == a;
      assert a == if i < k then chain[i] else if i == k then x else chain[i - 1];
    }
    assert c[k] == x;
  }

  lemma CutFreeSet(chain: seq<nat>, k: nat)
    requires 1 <= k < |chain| && Increasing(chain)
    ensures FreeSet(Cut(chain, k)) == FreeSet(chain) - {chain[k]}
  {
    var c := Cut(chain, k);
    assert Insert(c, k, chain[k]) == chain;
    InsertFreeSet(c, k, chain[k]);
    assert forall i | 1 <= i < |c| :: c[i] == chain[if i < k then i else i + 1] && c[i] != chain[k];
  }

  lemma CutIncreasing(chain: seq<nat>, k: nat)
    requires Increasing(chain) && k < |chain|
    ensures Increasing(Cut(chain, k))
  {
    var c := Cut(chain, k);
    assert forall i | 0 <= i < |c| :: c[i] == chain[if i < k then i else i + 1];
  }

  /** Taking position k off the list. */
  lemma CutLinked(mem: Mem, chain: seq<nat>, k: nat)
    requires Linked(mem, chain) && 1 <= k < |chain|
    ensures Linked(mem[chain[k - 1] := Header(Succ(chain, k), mem[chain[k - 1]].size)], Cut(chain, k))
  {
    var c := Cut(chain, k);
    var m := mem[chain[k - 1] := Header(Succ(chain, k), mem[chain[k - 1]].size)];
    CutIncreasing(chain, k);
    forall i | 0 <= i < |c|
      ensures c[i] in m && m[c[i]].ptr == Succ(c, i)
    {
      var j := if i < k then i else i + 1;
      assert c[i] == chain[j] && mem[chain[j]].ptr == Succ(chain, j);
    }
  }

  /** Sizes other than base's do not matter to the links. */
  lemma ResizeLinked(mem: Mem, chain: seq<nat>, a: nat, n: nat)
    requires Linked(mem, chain) && a in mem && a != BASE
    ensures Linked(mem[a := Header(mem[a].ptr, n)], chain)
  {
    var m := mem[a := Header(mem[a].ptr, n)];
    forall i | 0 <= i < |chain|
      ensures m[chain[i]].ptr == Succ(chain, i)
    {
      assert mem[chain[i]].ptr == Succ(chain, i);
    }
  }

  lemma FrameLinked(mem: Mem, chain: seq<nat>, a: nat, h: Header)
    requires Linked(mem, chain) && a !in chain
    ensures Linked(mem[a := h], chain)
  {
    var m := mem[a := h];
    forall i | 0 <= i < |chain|
      ensures chain[i] in m && m[chain[i]].ptr == Succ(chain, i)
    {
      assert mem[chain[i]].ptr == Succ(chain, i);
    }
  }

  // ---------- tilings ----------

  lemma TiledFrame(mem: Mem, mem': Mem, blocks: set<nat>, owner: map<nat, nat>)
    requires Tiled(mem, blocks, owner)
    requires forall a | a in blocks :: a in mem' && mem'[a].size == mem[a].size
    ensures Tiled(mem', blocks, owner)
  {
    forall a, u | a in blocks && InBlock(mem', a, u)
      ensures u in owner && owner[u] == a
    {
      assert InBlock(mem, a, u);
    }
    forall u | u in owner
      ensures InBlock(mem', owner[u], u)
    {
      assert InBlock(mem, owner[u], u);
    }
  }

  ghost function Remap(owner: map<nat, nat>, b: nat, a: nat): map<nat, nat> {
    map u | u in owner :: if owner[u] == b then a else owner[u]
  }

  /** Block a swallows block b, which starts where a ends. */
  lemma TiledMerge(mem: Mem, blocks: set<nat>, owner: map<nat, nat>, a: nat, b: nat, p: nat)
    requires Tiled(mem, blocks, owner) && a in blocks && b in blocks && a + mem[a].size == b
    ensures Tiled(mem[a := Header(p, mem[a].size + mem[b].size)], blocks - {b}, Remap(owner, b, a))
  {
    var m, o := mem[a := Header(p, mem[a].size + mem[b].size)], Remap(owner, b, a);
    forall c, u | c in blocks - {b} && InBlock(m, c, u)
      ensures u in o && o[u] == c
    {
      if c == a {
        assert InBlock(mem, a, u) || InBlock(mem, b, u);
      } else {
        assert InBlock(mem, c, u);
      }
    }
    forall u | u in o
      ensures o[u] in blocks - {b} && InBlock(m, o[u], u)
    {
      assert InBlock(mem, owner[u], u);
    }
  }

  ghost function CarveOwner(owner: map<nat, nat>, a: nat, q: nat): (o: map<nat, nat>)
    ensures o.Keys == owner.Keys
  {
    map u | u in owner :: if owner[u] == a && u >= q then q else owner[u]
  }

  /** The tail of block a becomes block q. */
  lemma TiledSplit(mem: Mem, blocks: set<nat>, owner: map<nat, nat>, a: nat, n: nat, p: nat)
    requires Tiled(mem, blocks, owner) && a in blocks && 0 < n < mem[a].size
    ensures var q := a + mem[a].size - n;
            && q !in blocks
            && Tiled(mem[a := Header(mem[a].ptr, mem[a].size - n)][q := Header(p, n)], blocks + {q},
                 CarveOwner(owner, a, q))
  {
    var q := a + mem[a].size - n;
    var m := mem[a := Header(mem[a].ptr, mem[a].size - n)][q := Header(p, n)];
    var o := CarveOwner(owner, a, q);
    assert InBlock(mem, a, q);
    assert q !in blocks by {
      if q in blocks {
        assert InBlock(mem, q, q);
      }
    }
    forall c, u | c in blocks + {q} && InBlock(m, c, u)
      ensures u in o && o[u] == c
    {
      assert InBlock(mem, if c == q then a else c, u);
    }
    forall u | u in o
      ensures o[u] in blocks + {q} && InBlock(m, o[u], u)
    {
      assert InBlock(mem, owner[u], u);
    }
  }

  ghost predicate InSpan(a: nat, n: nat, u: nat) {
    a <= u < a + n
  }

  ghost function GrowOwner(owner: map<nat, nat>, a: nat, n: nat): map<nat, nat> {
    owner + map u | a <= u < a + n && InSpan(a, n, u) :: a
  }

  /** A new block over units the arena did not have. */
  lemma TiledGrow(mem: Mem, blocks: set<nat>, owner: map<nat, nat>, a: nat, n: nat, p: nat)
    requires Tiled(mem, blocks, owner) && a > BASE && n > 0
    requires forall u | a <= u < a + n :: u !in owner
    ensures a !in blocks
    ensures Tiled(mem[a := Header(p, n)], blocks + {a}, GrowOwner(owner, a, n))
  {
    var m, o := mem[a := Header(p, n)], GrowOwner(owner, a, n);
    assert a !in blocks by {
      if a in blocks {
        assert InBlock(mem, a, a);
      }
    }
    forall c, u | c in blocks + {a} && InBlock(m, c, u)
      ensures u in o && o[u] == c
    {
      if c != a {
        assert InBlock(mem, c, u);
      }
    }
    forall u | u in o
      ensures o[u] in blocks + {a} && InBlock(m, o[u], u)
    {
      if u in owner {
        assert InBlock(mem, owner[u], u);
      }
    }
  }

  // ---------- freeing ----------

  /** The headers after bp has been linked in behind position t. */
  ghost function LinkIn(mem: Mem, chain: seq<nat>, t: nat, bp: nat): Mem
    requires t < |chain| && bp in mem && chain[t] in mem
  {
    var m1 := mem[bp := Header(Succ(chain, t), mem[bp].size)];
    m1[chain[t] := Header(bp, m1[chain[t]].size)]
  }

  /** The headers after block b of size mem[b].size has been added to block a in front of it. */
  ghost function Join(mem: Mem, a: nat, b: nat): Mem
    requires a in mem && b in mem
  {
    mem[a := Header(mem[b].ptr, mem[a].size + mem[b].size)]
  }

  ghost predicate Between(chain: seq<nat>, t: nat, bp: nat) {
    t < |chain| && chain[t] < bp && (t + 1 < |chain| ==> bp < chain[t + 1])
  }

  lemma LinkInKeeps(mem: Mem, chain: seq<nat>, live: set<nat>, owner: map<nat, nat>, t: nat, bp: nat)
    requires HeapInv(mem, chain, live, owner) && bp in live && Between(chain, t, bp)
    ensures bp in mem
    ensures HeapInv(LinkIn(mem, chain, t, bp), Insert(chain, t + 1, bp), live - {bp}, owner)
  {
    hide FreeSet;
    InsertLinked(mem, chain, t, bp);
    InsertFreeSet(chain, t + 1, bp);
    TiledFrame(mem, LinkIn(mem, chain, t, bp), FreeSet(chain) + live, owner);
    assert FreeSet(chain) + {bp} + (live - {bp}) == FreeSet(chain) + live;
  }

  lemma LinkInApart(mem: Mem, chain: seq<nat>, t: nat, bp: nat)
    requires Linked(mem, chain) && bp in mem && Between(chain, t, bp) && Apart(mem, chain)
    requires Linked(LinkIn(mem, chain, t, bp), Insert(chain, t + 1, bp))
    ensures ApartBut(LinkIn(mem, chain, t, bp), Insert(chain, t + 1, bp), {chain[t], bp})
  {
    var c, m := Insert(chain, t + 1, bp), LinkIn(mem, chain, t, bp);
    forall i | 1 <= i < |c| - 1 && c[i] !in {chain[t], bp}
      ensures c[i] + m[c[i]].size != Succ(c, i)
    {
      var j := if i <= t then i else i - 1;
      assert c[i] == chain[j] && Succ(c, i) == Succ(chain, j);
    }
  }

  lemma JoinKeeps(mem: Mem, chain: seq<nat>, live: set<nat>, owner: map<nat, nat>, i: nat)
    requires HeapInv(mem, chain, live, owner) && 1 <= i < |chain| - 1
    requires chain[i] + mem[chain[i]].size == chain[i + 1]
    ensures HeapInv(Join(mem, chain[i], chain[i + 1]), Cut(chain, i + 1), live, Remap(owner, chain[i + 1], chain[i]))
  {
    var a, b := chain[i], chain[i + 1];
    InFreeSet(chain, i);
    InFreeSet(chain, i + 1);
    hide FreeSet, Tiled;
    assert mem[b].ptr == Succ(chain, i + 1);
    CutLinked(mem, chain, i + 1);
    ResizeLinked(mem[a := Header(mem[b].ptr, mem[a].size)], Cut(chain, i + 1), a, mem[a].size + mem[b].size);
    assert Join(mem, a, b) ==
      mem[a := Header(mem[b].ptr, mem[a].size)][a := Header(mem[b].ptr, mem[a].size + mem[b].size)];
    CutFreeSet(chain, i + 1);
    TiledMerge(mem, FreeSet(chain) + live, owner, a, b, mem[b].ptr);
    assert FreeSet(chain) + live - {b} == FreeSet(Cut(chain, i + 1)) + live;
  }

  lemma JoinApart(mem: Mem, chain: seq<nat>, i: nat, x: set<nat>)
    requires Linked(mem, chain) && 1 <= i < |chain| - 1 && ApartBut(mem, chain, x)
    requires chain[i] + mem[chain[i]].size == chain[i + 1] && chain[i + 1] !in x
    requires Linked(Join(mem, chain[i], chain[i + 1]), Cut(chain, i + 1))
    ensures ApartBut(Join(mem, chain[i], chain[i + 1]), Cut(chain, i + 1), x - {chain[i]})
  {
    var c, m := Cut(chain, i + 1), Join(mem, chain[i], chain[i + 1]);
    forall k | 1 <= k < |c| - 1 && c[k] !in x - {chain[i]}
      ensures c[k] + m[c[k]].size != Succ(c, k)
    {
      if k < i {
        assert c[k] == chain[k] && Succ(c, k) == Succ(chain, k);
      } else if k == i {
        assert c[k] == chain[i] && Succ(c, k) == Succ(chain, i + 1);
      } else {
        assert c[k] == chain[k + 1] && Succ(c, k) == Succ(chain, k + 1);
      }
    }
  }

  /** Every header after `free(bp)` when the search has stopped at p. */
  function FreeMem(mem: Mem, p: nat, bp: nat): Mem
    requires p in mem && bp in mem && mem[p].ptr in mem
  {
    var nxt := mem[p].ptr;
    var h := if bp + mem[bp].size == nxt then Header(mem[nxt].ptr, mem[bp].size + mem[nxt].size)
             else Header(nxt, mem[bp].size);
    var m := mem[bp := h];
    m[p := if p + m[p].size == bp then Header(h.ptr, m[p].size + h.size) else Header(bp, m[p].size)]
  }

  lemma ApartShrink(mem: Mem, chain: seq<nat>, x: set<nat>, i: nat)
    requires Linked(mem, chain) && ApartBut(mem, chain, x) && i < |chain|
    requires i == 0 || i == |chain| - 1 || chain[i] + mem[chain[i]].size != chain[i + 1]
    ensures ApartBut(mem, chain, x - {chain[i]})
  {
  }

  lemma FreeUpJoin(mem: Mem, chain: seq<nat>, live: set<nat>, owner: map<nat, nat>, t: nat, bp: nat, nxt: nat)
    returns (c: seq<nat>, o: map<nat, nat>)
    requires HeapInv(mem, chain, live, owner) && bp in live && Between(chain, t, bp) && Apart(mem, chain)
    requires bp in mem && nxt == Succ(chain, t) && bp + mem[bp].size == nxt && nxt in mem
    ensures HeapInv(Join(LinkIn(mem, chain, t, bp), bp, nxt), c, live - {bp}, o)
    ensures ApartBut(Join(LinkIn(mem, chain, t, bp), bp, nxt), c, {chain[t]}) && o.Keys == owner.Keys
    ensures t + 1 < |c| && c[t] == chain[t] && c[t + 1] == bp
  {
    LinkInKeeps(mem, chain, live, owner, t, bp);
    LinkInApart(mem, chain, t, bp);
    hide Tiled, FreeSet, ApartBut;
    var m := LinkIn(mem, chain, t, bp);
    c, o := Insert(chain, t + 1, bp), owner;
    assert t + 1 < |chain| && c[t + 1] == bp && c[t + 2] == chain[t + 1] == nxt;
    JoinKeeps(m, c, live - {bp}, o, t + 1);
    JoinApart(m, c, t + 1, {chain[t], bp});
    c, o := Cut(c, t + 2), Remap(o, nxt, bp);
    assert {chain[t], bp} - {bp} == {chain[t]};
  }

  /** Coalescing upwards: bp with the free block behind it. */
  lemma FreeUp(mem: Mem, chain: seq<nat>, live: set<nat>, owner: map<nat, nat>, t: nat, bp: nat)
    returns (m: Mem, c: seq<nat>, o: map<nat, nat>)
    requires HeapInv(mem, chain, live, owner) && bp in live && Between(chain, t, bp) && Apart(mem, chain)
    ensures HeapInv(m, c, live - {bp}, o) && ApartBut(m, c, {chain[t]}) && o.Keys == owner.Keys
    ensures t + 1 < |c| && c[t] == chain[t] && c[t + 1] == bp
    ensures bp in mem && chain[t] in mem && mem[chain[t]].ptr in mem
    ensures var nxt := mem[chain[t]].ptr;
            var h := if bp + mem[bp].size == nxt then Header(mem[nxt].ptr, mem[bp].size + mem[nxt].size)
                     else Header(nxt, mem[bp].size);
            m == mem[bp := h][chain[t] := Header(bp, mem[chain[t]].size)]
  {
    var nxt := Succ(chain, t);
    assert mem[chain[t]].ptr == nxt;
    LinkInKeeps(mem, chain, live, owner, t, bp);
    m := LinkIn(mem, chain, t, bp);
    if bp + mem[bp].size == nxt {
      hide Tiled, FreeSet, ApartBut;
      c, o := FreeUpJoin(mem, chain, live, owner, t, bp, nxt);
      m := Join(m, bp, nxt);
    } else {
      LinkInApart(mem, chain, t, bp);
      hide Tiled, FreeSet, ApartBut;
      c, o := Insert(chain, t + 1, bp), owner;
      assert t + 2 < |c| ==> c[t + 2] == chain[t + 1];
      ApartShrink(m, c, {chain[t], bp}, t + 1);
      assert {chain[t], bp} - {bp} == {chain[t]};
    }
  }

  /** Freeing a live block: the free list and the tiling after `free`. */
  lemma FreeKeeps(mem: Mem, chain: seq<nat>, live: set<nat>, owner: map<nat, nat>, t: nat, bp: nat)
    returns (c: seq<nat>, o: map<nat, nat>, j: nat)
    requires HeapInv(mem, chain, live, owner) && bp in live && Between(chain, t, bp) && Apart(mem, chain)
    ensures bp in mem && chain[t] in mem && mem[chain[t]].ptr in mem
    ensures 1 <= j < |c| && c[j] in FreeMem(mem, chain[t], bp)
    ensures FreeMem(mem, chain[t], bp)[c[j]].size >= mem[bp].size
    ensures HeapInv(FreeMem(mem, chain[t], bp), c, live - {bp}, o)
    ensures Apart(FreeMem(mem, chain[t], bp), c)
    ensures o.Keys == owner.Keys && t < |c| && c[t] == chain[t]
  {
    var m;
    m, c, o := FreeUp(mem, chain, live, owner, t, bp);
    var p := chain[t];
    assert t == 0 ==> mem[p].size == 0;
    hide Tiled, FreeSet, ApartBut, HeapInv;
    if p + mem[p].size == bp {
      JoinKeepsAt(m, c, live - {bp}, o, t, p);
      m, c, o := Join(m, p, bp), Cut(c, t + 1), Remap(o, bp, p);
      j := t;
    } else {
      ApartShrink(m, c, {p}, t);
      assert {p} - {p} == {};
      j := t + 1;
    }
    assert m == FreeMem(mem, p, bp);
  }

  lemma JoinKeepsAt(mem: Mem, chain: seq<nat>, live: set<nat>, owner: map<nat, nat>, t: nat, p: nat)
    requires HeapInv(mem, chain, live, owner) && 1 <= t < |chain| - 1 && chain[t] == p
    requires p + mem[p].size == chain[t + 1] && ApartBut(mem, chain, {p})
    ensures HeapInv(Join(mem, p, chain[t + 1]), Cut(chain, t + 1), live, Remap(owner, chain[t + 1], p))
    ensures Apart(Join(mem, p, chain[t + 1]), Cut(chain, t + 1))
  {
    hide Tiled, FreeSet, ApartBut;
    JoinKeeps(mem, chain, live, owner, t);
    JoinApart(mem, chain, t, {p});
    assert {p} - {p} == {};
  }

  /** `free` changes no header of a block that stays live. */
  lemma FreeFrame(mem: Mem, chain: seq<nat>, live: set<nat>, owner: map<nat, nat>, t: nat, bp: nat)
    requires HeapInv(mem, chain, live, owner) && bp in live && t < |chain|
    requires bp in mem && chain[t] in mem && mem[chain[t]].ptr in mem
    ensures forall a | a in live && a != bp :: a in mem && FreeMem(mem, chain[t], bp)[a] == mem[a]
  {
    if t > 0 {
      InFreeSet(chain, t);
    }
  }

  // ---------- taking ----------

  lemma TakeWholeKeeps(mem: Mem, chain: seq<nat>, live: set<nat>, owner: map<nat, nat>, k: nat)
    requires HeapInv(mem, chain, live, owner) && 1 <= k < |chain|
    ensures HeapInv(mem[chain[k - 1] := Header(Succ(chain, k), mem[chain[k - 1]].size)], Cut(chain, k),
              live + {chain[k]}, owner)
    ensures chain[k] !in live
  {
    var m := mem[chain[k - 1] := Header(Succ(chain, k), mem[chain[k - 1]].size)];
    InFreeSet(chain, k);
    CutLinked(mem, chain, k);
    CutFreeSet(chain, k);
    hide FreeSet;
    TiledFrame(mem, m, FreeSet(chain) + live, owner);
    assert FreeSet(chain) + live == FreeSet(chain) - {chain[k]} + (live + {chain[k]});
  }

  lemma TakeWholeApart(mem: Mem, chain: seq<nat>, live: set<nat>, owner: map<nat, nat>, k: nat)
    requires HeapInv(mem, chain, live, owner) && Apart(mem, chain) && 1 <= k < |chain|
    requires HeapInv(mem[chain[k - 1] := Header(Succ(chain, k), mem[chain[k - 1]].size)], Cut(chain, k),
               live + {chain[k]}, owner)
    ensures Apart(mem[chain[k - 1] := Header(Succ(chain, k), mem[chain[k - 1]].size)], Cut(chain, k))
  {
    var m, c := mem[chain[k - 1] := Header(Succ(chain, k), mem[chain[k - 1]].size)], Cut(chain, k);
    forall i | 1 <= i < |c| - 1
      ensures c[i] + m[c[i]].size != Succ(c, i)
    {
      if i == k - 1 {
        InFreeSet(chain, i);
        InFreeSet(chain, k);
        BlocksDisjoint(mem, FreeSet(chain) + live, owner, chain[i], chain[k]);
        assert c[i] == chain[i] && Succ(c, i) == chain[k + 1] > chain[k];
      } else {
        var j := if i < k then i else i + 1;
        assert c[i] == chain[j] && Succ(c, i) == Succ(chain, j);
      }
    }
  }

  lemma TailOffList(mem: Mem, chain: seq<nat>, live: set<nat>, owner: map<nat, nat>, k: nat, n: nat)
    requires HeapInv(mem, chain, live, owner) && 1 <= k < |chain| && 0 < n < mem[chain[k]].size
    ensures chain[k] in FreeSet(chain) + live && chain[k] > BASE
    ensures chain[k] + mem[chain[k]].size - n !in chain
    ensures chain[k] + mem[chain[k]].size - n !in FreeSet(chain) + live
  {
    var a := chain[k];
    var q := a + mem[a].size - n;
    InFreeSet(chain, k);
    assert InBlock(mem, a, q);
    assert q !in FreeSet(chain) + live by {
      if q in FreeSet(chain) + live {
        assert InBlock(mem, q, q);
      }
    }
    forall i | 0 <= i < |chain|
      ensures chain[i] != q
    {
      if i > 0 {
        InFreeSet(chain, i);
      }
    }
  }

  lemma TakeTailKeeps(mem: Mem, chain: seq<nat>, live: set<nat>, owner: map<nat, nat>, k: nat, n: nat, p: nat)
    requires HeapInv(mem, chain, live, owner) && Apart(mem, chain) && 1 <= k < |chain| && 0 < n < mem[chain[k]].size
    ensures var a := chain[k];
            var q := a + mem[a].size - n;
            var m := mem[a := Header(mem[a].ptr, mem[a].size - n)][q := Header(p, n)];
            && q !in live
            && HeapInv(m, chain, live + {q}, CarveOwner(owner, a, q))
            && Apart(m, chain)
  {
    hide Tiled, FreeSet, ApartBut;
    var a := chain[k];
    var q := a + mem[a].size - n;
    TailOffList(mem, chain, live, owner, k, n);
    TiledSplit(mem, FreeSet(chain) + live, owner, a, n, p);
    ResizeLinked(mem, chain, a, mem[a].size - n);
    FrameLinked(mem[a := Header(mem[a].ptr, mem[a].size - n)], chain, q, Header(p, n));
    assert FreeSet(chain) + live + {q} == FreeSet(chain) + (live + {q});
    TakeTailApart(mem, chain, live, owner, k, n, p);
  }

  lemma TakeTailApart(mem: Mem, chain: seq<nat>, live: set<nat>, owner: map<nat, nat>, k: nat, n: nat, p: nat)
    requires HeapInv(mem, chain, live, owner) && Apart(mem, chain) && 1 <= k < |chain| && 0 < n < mem[chain[k]].size
    requires chain[k] + mem[chain[k]].size - n !in chain
    ensures Apart(mem[chain[k] := Header(mem[chain[k]].ptr, mem[chain[k]].size - n)]
                     [chain[k] + mem[chain[k]].size - n := Header(p, n)], chain)
  {
    var a := chain[k];
    var m := mem[a := Header(mem[a].ptr, mem[a].size - n)][a + mem[a].size - n := Header(p, n)];
    forall i | 1 <= i < |chain| - 1
      ensures chain[i] + m[chain[i]].size != Succ(chain, i)
    {
      if i == k {
        InFreeSet(chain, k);
        InFreeSet(chain, k + 1);
        BlocksDisjoint(mem, FreeSet(chain) + live, owner, chain[k], chain[k + 1]);
      }
    }
  }

  // ---------- searching ----------

  lemma {:induction false} FindSlot(chain: seq<nat>, bp: nat) returns (t: nat)
    requires chain != [] && Increasing(chain) && chain[0] < bp && bp !in chain
    ensures Between(chain, t, bp)
    decreases |chain|
  {
    var m := |chain| - 1;
    if chain[m] < bp {
      t := m;
    } else {
      t := FindSlot(chain[..m], bp);
      assert t + 1 == m ==> bp < chain[m];
    }
  }

  /** Position i + d on a cycle of n positions. */
  function Around(n: nat, i: nat, d: nat): (r: nat)
    requires i < n && d <= n
    ensures r < n
  {
    if i + d < n then i + d else i + d - n
  }

  /** Steps from position i forward to position t. */
  function Steps(n: nat, i: nat, t: nat): nat
    requires i < n && t < n
  {
    if i <= t then t - i else t - i + n
  }

  /** Units for a request of nbytes, header included. */
  function Units(nbytes: nat): nat {
    (nbytes + UNIT - 1) / UNIT + 1
  }

  /** Units that `morecore` asks of sbrk. */
  function CoreUnits(nunits: nat): nat {
    if nunits < 4096 then 4096 else nunits
  }

  class Heap {
    var mem: Mem
    var freep: nat
    ghost var chain: seq<nat>
    ghost var live: set<nat>
    ghost var owner: map<nat, nat>

    ghost predicate Ready()
      reads this
    {
      && HeapInv(mem, chain, live, owner) && Apart(mem, chain)
      && freep in chain
    }

    ghost predicate Valid()
      reads this
    {
      if freep == NULL then live == {} && owner == map[] else Ready()
    }

    constructor ()
      ensures Valid() && live == {} && owner == map[]
    {
      mem, freep, chain, live, owner := map[], NULL, [], {}, map[];
    }

    /** The search loop of `free`: the free block behind which bp belongs. */
    method FindPlace(bp: nat) returns (p: nat, ghost i: nat)
      requires Ready() && bp in live
      ensures Between(chain, i, bp) && p == chain[i]
      ensures bp in mem && p in mem && mem[p].ptr in mem
    {
      hide Tiled, FreeSet, ApartBut;
      LiveOffList(mem, chain, live, owner, bp);
      ghost var t := FindSlot(chain, bp);
      i :| 0 <= i < |chain| && chain[i] == freep;
      p := freep;
      while !(bp > p && bp < mem[p].ptr)
        invariant 0 <= i < |chain| && p == chain[i]
        decreases Steps(|chain|, i, t)
      {
        assert mem[p].ptr == Succ(chain, i);
        if p >= mem[p].ptr && (bp > p || bp < mem[p].ptr) {
          break;
        }
        assert i != t;
        p := mem[p].ptr;
        i := Around(|chain|, i, 1);
      }
      assert mem[p].ptr == Succ(chain, i);
    }

    /** `free` of the live block whose header is at bp. */
    method Free(bp: nat) returns (ghost j: nat)
      requires Ready() && bp in live
      modifies this
      ensures Ready() && live == old(live) - {bp} && owner.Keys == old(owner.Keys)
      ensures KeepsHeaders(live, old(mem), mem)
      ensures bp in old(mem) && 1 <= j < |chain| && chain[j] in mem && mem[chain[j]].size >= old(mem)[bp].size
    {
      var p;
      ghost var i;
      p, i := FindPlace(bp);
      hide Tiled, FreeSet, ApartBut, Between;
      ghost var c, o;
      c, o, j := FreeKeeps(mem, chain, live, owner, i, bp);
      FreeFrame(mem, chain, live, owner, i, bp);
      mem := Coalesce(mem, p, bp);
      freep := p;
      chain, owner, live := c, o, live - {bp};
      assert c[i] == p;
    }

    /** The first branch of `malloc`: an empty list that consists of base alone. */
    method Init()
      requires Valid() && freep == NULL
      modifies this
      ensures Ready() && live == {} && owner == map[] && chain == [BASE]
    {
      mem := mem[BASE := Header(BASE, 0)];
      freep := BASE;
      chain := [BASE];
    }

    /** `morecore`: the number of bytes it asks sbrk for is a positive int. True after the new units have been put on
        the free list. */
    method Morecore(nunits: nat, sbrk: Option<nat>) returns (ok: bool, ghost j: nat)
      requires Ready() && nunits > 0 && CoreUnits(nunits) * UNIT <= INT_MAX
      requires sbrk.Some? ==> FreshSpan(owner, sbrk.value, CoreUnits(nunits))
      modifies this
      ensures Ready() && live == old(live) && ok == sbrk.Some?
      ensures !ok ==> mem == old(mem) && owner == old(owner)
      ensures ok ==> Fits(mem, chain, j, nunits)
      ensures ok ==> owner.Keys == old(owner.Keys) + Span(sbrk.value, CoreUnits(nunits))
      ensures KeepsHeaders(live, old(mem), mem)
    {
      j := 0;
      match sbrk
      case None =>
        LiveInMem(mem, chain, live, owner);
        return false, 0;
      case Some(hp) =>
        var nu := CoreUnits(nunits);
        LiveInMem(mem, chain, live, owner);
        GrowKeeps(mem, chain, live, owner, hp, nu);
        ghost var m := mem;
        mem := mem[hp := Header(NULL, nu)];
        live, owner := live + {hp}, GrowOwner(owner, hp, nu);
        hide Tiled, FreeSet, Linked, ApartBut;
        j := Free(hp);
        return true, j;
    }

    /** `malloc` takes the whole free block p, whose predecessor on the list is prevp. */
    method TakeWhole(prevp: nat, p: nat, ghost k: nat)
      requires Ready() && 1 <= k < |chain| && p == chain[k] && prevp == chain[k - 1]
      modifies this
      ensures Ready() && p !in old(live) && live == old(live) + {p} && owner == old(owner)
      ensures p in mem && p in old(mem) && mem[p].size == old(mem)[p].size
      ensures KeepsHeaders(old(live), old(mem), mem)
    {
      hide HeapInv, Apart;
      LiveInMem(mem, chain, live, owner);
      OffLive(mem, chain, live, owner, k);
      TakeWholeKeeps(mem, chain, live, owner, k);
      TakeWholeApart(mem, chain, live, owner, k);
      mem := mem[prevp := Header(mem[p].ptr, mem[prevp].size)];
      chain, live := Cut(chain, k), live + {p};
      freep := prevp;
      assert chain[k - 1] == prevp;
    }

    /** `malloc` cuts nunits off the end of the larger free block p. */
    method TakeTail(prevp: nat, p: nat, nunits: nat, ghost k: nat) returns (r: nat)
      requires Ready() && 1 <= k < |chain| && p == chain[k] && prevp == chain[k - 1]
      requires 0 < nunits < mem[p].size
      modifies this
      ensures Ready() && r !in old(live) && live == old(live) + {r} && owner.Keys == old(owner.Keys)
      ensures r in mem && mem[r].size == nunits
      ensures KeepsHeaders(old(live), old(mem), mem)
    {
      hide HeapInv, Apart, CarveOwner, FreeSet;
      LiveInMem(mem, chain, live, owner);
      OffLive(mem, chain, live, owner, k);
      r := p + mem[p].size - nunits;
      var junk := if r in mem then mem[r].ptr else NULL;
      TakeTailKeeps(mem, chain, live, owner, k, nunits, junk);
      var m := mem[p := Header(mem[p].ptr, mem[p].size - nunits)];
      m := m[r := Header(junk, nunits)];
      assert HeapInv(m, chain, live + {r}, CarveOwner(owner, p, r));
      assert KeepsHeaders(live, mem, m);
      mem, freep, live, owner := m, prevp, live + {r}, CarveOwner(owner, p, r);
    }

    /** The block that fits: the whole of it, or its tail. */
    method Take(prevp: nat, p: nat, nunits: nat, ghost k: nat) returns (r: nat)
      requires Ready() && 1 <= k < |chain| && p == chain[k] && prevp == chain[k - 1]
      requires p in mem && 0 < nunits <= mem[p].size
      modifies this
      ensures Ready() && r !in old(live) && live == old(live) + {r} && owner.Keys == old(owner.Keys)
      ensures r in mem && mem[r].size == nunits
      ensures KeepsHeaders(old(live), old(mem), mem)
    {
      hide HeapInv, Apart;
      if mem[p].size == nunits {
        TakeWhole(prevp, p, k);
        return p;
      }
      r := TakeTail(prevp, p, nunits, k);
    }

    /** `malloc`, with the outcome of the sbrk call it may make. None is the null pointer. Neither the rounding of
        nbytes nor the number of bytes to ask sbrk for overflows. */
    method Malloc(nbytes: nat, sbrk: Option<nat>) returns (r: Option<nat>, calls: nat)
      requires Valid() && nbytes + UNIT - 1 < UINT_LIMIT && CoreUnits(Units(nbytes)) * UNIT <= INT_MAX
      requires sbrk.Some? ==> FreshSpan(owner, sbrk.value, CoreUnits(Units(nbytes)))
      modifies this
      ensures Ready() && calls <= 1
      ensures calls == 1 <==> old(freep) == NULL || NoneFits(old(mem), old(chain), Units(nbytes))
      ensures r.None? ==> calls == 1 && sbrk.None? && live == old(live)
      ensures r.Some? ==>
                && r.value !in old(live) && live == old(live) + {r.value}
                && r.value in mem && mem[r.value].size == Units(nbytes)
      ensures owner.Keys ==
                old(owner.Keys) + if calls == 1 && sbrk.Some? then Span(sbrk.value, CoreUnits(Units(nbytes))) else {}
      ensures KeepsHeaders(old(live), old(mem), mem)
    {
      hide HeapInv, Apart, Units, CoreUnits, FreshSpan, Span, Scanning, NoneFits, Fits, Around, KeepsHeaders;
      var nunits := Units(nbytes);
      assert nunits > 0 by { LeastUnits(nbytes, 0); }
      if freep == NULL {
        Init();
        KeepsNone(old(mem), mem);
      } else {
        KeepsSame(mem, chain, live, owner);
      }
      calls := 0;
      ghost var j := 0;
      var prevp := freep;
      ghost var d := 1;
      ghost var f := ScanStart(mem, chain, live, owner, freep, nunits);
      var p := mem[prevp].ptr;
      while true
        invariant Ready() && live == old(live) && KeepsHeaders(live, old(mem), mem)
        invariant Scanning(mem, chain, f, d, freep, prevp, p, nunits) && prevp in mem && p in mem
        invariant calls <= 1 && (calls == 1 ==> sbrk.Some? && Fits(mem, chain, j, nunits))
        invariant calls == 0 ==> owner == old(owner)
        invariant calls == 0 ==> if old(freep) == NULL then chain == [BASE] else mem == old(mem) && chain == old(chain)
        invariant calls == 1 ==> old(freep) == NULL || NoneFits(old(mem), old(chain), nunits)
        invariant calls == 1 ==> owner.Keys == old(owner.Keys) + Span(sbrk.value, CoreUnits(nunits))
        decreases 1 - calls, ScanLeft(chain, d)
      {
        if mem[p].size >= nunits {
          ghost var k := ScanFound(mem, chain, live, owner, f, d, freep, prevp, p, nunits);
          SomeFits(mem, chain, k, nunits);
          ghost var m := mem;
          var q := Take(prevp, p, nunits, k);
          KeepsBoth(old(live), old(mem), m, mem);
          return Some(q), calls;
        }
        if p == freep {
          ScanExhausted(mem, chain, live, owner, f, d, freep, prevp, p, nunits);
          assert calls == 0 by {
            if calls == 1 {
              SomeFits(mem, chain, j, nunits);
            }
          }
          ghost var m := mem;
          var ok;
          ok, j := Morecore(nunits, sbrk);
          KeepsBoth(live, old(mem), m, mem);
          calls := 1;
          if !ok {
            return None, calls;
          }
          p := freep;
          f := ScanStart(mem, chain, live, owner, freep, nunits);
          prevp, p, d := p, mem[p].ptr, 1;
        } else {
          ScanNext(mem, chain, live, owner, f, d, freep, prevp, p, nunits);
          prevp, p, d := p, mem[p].ptr, d + 1;
        }
      }
    }
  }

  // ---------- the first-fit scan ----------

  ghost predicate KeepsHeaders(live: set<nat>, before: Mem, after: Mem) {
    forall a | a in live :: a in before && a in after && after[a] == before[a]
  }

  lemma KeepsNone(m0: Mem, m1: Mem)
    ensures KeepsHeaders({}, m0, m1)
  {
  }

  lemma KeepsSame(mem: Mem, chain: seq<nat>, live: set<nat>, owner: map<nat, nat>)
    requires HeapInv(mem, chain, live, owner)
    ensures KeepsHeaders(live, mem, mem)
  {
    hide HeapInv;
    LiveInMem(mem, chain, live, owner);
  }

  lemma KeepsBoth(live: set<nat>, m0: Mem, m1: Mem, m2: Mem)
    requires KeepsHeaders(live, m0, m1) && KeepsHeaders(live, m1, m2)
    ensures KeepsHeaders(live, m0, m2)
  {
  }

  ghost predicate Fits(mem: Mem, chain: seq<nat>, j: nat, nunits: nat) {
    1 <= j < |chain| && chain[j] in mem && mem[chain[j]].size >= nunits
  }

  ghost predicate NoneFits(mem: Mem, chain: seq<nat>, nunits: nat) {
    forall j: nat :: !Fits(mem, chain, j, nunits)
  }

  lemma SomeFits(mem: Mem, chain: seq<nat>, j: nat, nunits: nat)
    requires Fits(mem, chain, j, nunits)
    ensures !NoneFits(mem, chain, nunits)
  {
  }

  /** The scan stands d steps past freep, and the d - 1 blocks before it are too small. */
  ghost predicate Scanning(mem: Mem, chain: seq<nat>, f: nat, d: nat, freep: nat, prevp: nat, p: nat, nunits: nat) {
    && f < |chain| && chain[f] == freep && 1 <= d <= |chain|
    && prevp == chain[Around(|chain|, f, d - 1)] && p == chain[Around(|chain|, f, d)]
    && (forall i | 0 <= i < |chain| :: chain[i] in mem)
    && (forall e {:trigger Around(|chain|, f, e)} | 1 <= e < d :: mem[chain[Around(|chain|, f, e)]].size < nunits)
  }

  ghost function ScanLeft(chain: seq<nat>, d: nat): int {
    |chain| - d
  }

  lemma ScanStart(mem: Mem, chain: seq<nat>, live: set<nat>, owner: map<nat, nat>, freep: nat, nunits: nat)
    returns (f: nat)
    requires HeapInv(mem, chain, live, owner) && freep in chain
    ensures freep in mem && mem[freep].ptr in mem
    ensures Scanning(mem, chain, f, 1, freep, freep, mem[freep].ptr, nunits)
  {
    hide Tiled, FreeSet;
    f :| 0 <= f < |chain| && chain[f] == freep;
    assert mem[freep].ptr == Succ(chain, f);
  }

  lemma ScanNext(mem: Mem, chain: seq<nat>, live: set<nat>, owner: map<nat, nat>,
                 f: nat, d: nat, freep: nat, prevp: nat, p: nat, nunits: nat)
    requires HeapInv(mem, chain, live, owner) && Scanning(mem, chain, f, d, freep, prevp, p, nunits)
    requires p in mem && mem[p].size < nunits && p != freep
    ensures d < |chain| && mem[p].ptr in mem
    ensures Scanning(mem, chain, f, d + 1, freep, p, mem[p].ptr, nunits)
  {
    hide Tiled, FreeSet;
    assert mem[p].ptr == Succ(chain, Around(|chain|, f, d));
    assert d != |chain|;
  }

  /** A block that fits is not base, and prevp is the block before it. */
  lemma ScanFound(mem: Mem, chain: seq<nat>, live: set<nat>, owner: map<nat, nat>,
                  f: nat, d: nat, freep: nat, prevp: nat, p: nat, nunits: nat) returns (k: nat)
    requires HeapInv(mem, chain, live, owner) && Scanning(mem, chain, f, d, freep, prevp, p, nunits)
    requires p in mem && 0 < nunits <= mem[p].size
    ensures 1 <= k < |chain| && p == chain[k] && prevp == chain[k - 1] && Fits(mem, chain, k, nunits)
  {
    hide Tiled, FreeSet;
    k := Around(|chain|, f, d);
    assert Around(|chain|, f, d - 1) == k - 1;
  }

  /** A scan that comes back to freep has seen every block. */
  lemma ScanExhausted(mem: Mem, chain: seq<nat>, live: set<nat>, owner: map<nat, nat>,
                      f: nat, d: nat, freep: nat, prevp: nat, p: nat, nunits: nat)
    requires HeapInv(mem, chain, live, owner) && Scanning(mem, chain, f, d, freep, prevp, p, nunits)
    requires p in mem && mem[p].size < nunits && p == freep
    ensures NoneFits(mem, chain, nunits)
  {
    hide Tiled, FreeSet;
    assert Around(|chain|, f, d) == f && d == |chain|;
    forall j: nat
      ensures !Fits(mem, chain, j, nunits)
    {
      if j < |chain| && j != f {
        assert Around(|chain|, f, Steps(|chain|, f, j)) == j;
      }
    }
  }

  /** The assignments of `free` once the place is found. */
  method Coalesce(mem: Mem, p: nat, bp: nat) returns (m: Mem)
    requires p in mem && bp in mem && mem[p].ptr in mem
    ensures m == FreeMem(mem, p, bp)
  {
    m := mem;
    if bp + m[bp].size == m[p].ptr {
      var nxt := m[p].ptr;
      m := m[bp := m[bp].(size := m[bp].size + m[nxt].size)];
      m := m[bp := m[bp].(ptr := m[nxt].ptr)];
    } else {
      m := m[bp := m[bp].(ptr := m[p].ptr)];
    }
    if p + m[p].size == bp {
      m := m[p := m[p].(size := m[p].size + m[bp].size)];
      m := m[p := m[p].(ptr := m[bp].ptr)];
    } else {
      m := m[p := m[p].(ptr := bp)];
    }
  }

  lemma LiveOffList(mem: Mem, chain: seq<nat>, live: set<nat>, owner: map<nat, nat>, bp: nat)
    requires HeapInv(mem, chain, live, owner) && bp in live
    ensures bp > BASE && bp in mem && bp !in chain
  {
    forall i | 0 <= i < |chain|
      ensures chain[i] != bp
    {
      if i > 0 {
        InFreeSet(chain, i);
      }
    }
  }

  ghost function Span(a: nat, n: nat): set<nat> {
    set u | a <= u < a + n && InSpan(a, n, u)
  }

  /** Units a .. a + n lie above base and outside the arena. */
  ghost predicate FreshSpan(owner: map<nat, nat>, a: nat, n: nat) {
    a > BASE && forall u | InSpan(a, n, u) :: u !in owner
  }

  lemma LiveInMem(mem: Mem, chain: seq<nat>, live: set<nat>, owner: map<nat, nat>)
    requires HeapInv(mem, chain, live, owner)
    ensures forall a | a in live :: a in mem && a in owner
    ensures forall i | 1 <= i < |chain| :: chain[i] in owner
  {
    forall a | a in live
      ensures a in mem && a in owner
    {
      assert InBlock(mem, a, a);
    }
    forall i | 1 <= i < |chain|
      ensures chain[i] in owner
    {
      InFreeSet(chain, i);
      assert InBlock(mem, chain[i], chain[i]);
    }
  }

  /** A block fresh from sbrk joins the arena as a live block. */
  lemma GrowKeeps(mem: Mem, chain: seq<nat>, live: set<nat>, owner: map<nat, nat>, a: nat, n: nat)
    requires HeapInv(mem, chain, live, owner) && Apart(mem, chain) && n > 0 && FreshSpan(owner, a, n)
    ensures a !in live && a !in owner
    ensures HeapInv(mem[a := Header(NULL, n)], chain, live + {a}, GrowOwner(owner, a, n))
    ensures Apart(mem[a := Header(NULL, n)], chain)
    ensures GrowOwner(owner, a, n).Keys == owner.Keys + Span(a, n)
  {
    LiveInMem(mem, chain, live, owner);
    assert InSpan(a, n, a);
    assert a !in chain;
    forall u | a <= u < a + n
      ensures u !in owner
    {
      assert InSpan(a, n, u);
    }
    TiledGrow(mem, FreeSet(chain) + live, owner, a, n, NULL);
    FrameLinked(mem, chain, a, Header(NULL, n));
    hide Tiled;
    assert FreeSet(chain) + live + {a} == FreeSet(chain) + (live + {a});
    assert a !in FreeSet(chain);
    forall i | 1 <= i < |chain| - 1
      ensures chain[i] + mem[a := Header(NULL, n)][chain[i]].size != Succ(chain, i)
    {
    }
  }

  /** A header and the fewest units that hold nbytes; `morecore` asks for no less, and for 4096 units at least. */
  lemma LeastUnits(nbytes: nat, n: nat)
    ensures Units(nbytes) > 0 && (Units(nbytes) - 1) * UNIT >= nbytes
    ensures n * UNIT >= nbytes ==> n + 1 >= Units(nbytes)
    ensures CoreUnits(n) >= n && CoreUnits(n) >= 4096 && (n >= 4096 ==> CoreUnits(n) == n)
    ensures n <= 4096 ==> CoreUnits(n) * UNIT == 32768
  {
  }

  lemma OffLive(mem: Mem, chain: seq<nat>, live: set<nat>, owner: map<nat, nat>, k: nat)
    requires HeapInv(mem, chain, live, owner) && 1 <= k < |chain|
    ensures chain[k] !in live && chain[k - 1] !in live
    ensures chain[k] in mem && chain[k - 1] in mem && mem[chain[k]].ptr == Succ(chain, k)
  {
    InFreeSet(chain, k);
    if k > 1 {
      InFreeSet(chain, k - 1);
    }
  }

  /** What the invariant means: free and live blocks partition the arena, live blocks never overlap
      anything, and consecutive free blocks have a gap between them. */
  lemma ArenaPartition(mem: Mem, chain: seq<nat>, live: set<nat>, owner: map<nat, nat>)
    requires HeapInv(mem, chain, live, owner) && Apart(mem, chain)
    ensures forall u :: u in owner <==> exists a | a in FreeSet(chain) + live :: InBlock(mem, a, u)
    ensures forall a, b, u | a in FreeSet(chain) + live && b in FreeSet(chain) + live
              && InBlock(mem, a, u) && InBlock(mem, b, u) :: a == b
    ensures FreeSet(chain) !! live
    ensures forall i | 1 <= i < |chain| - 1 :: chain[i] + mem[chain[i]].size < Succ(chain, i)
  {
    forall u | u in owner
      ensures exists a | a in FreeSet(chain) + live :: InBlock(mem, a, u)
    {
      assert InBlock(mem, owner[u], u);
    }
    forall i | 1 <= i < |chain| - 1
      ensures chain[i] + mem[chain[i]].size < Succ(chain, i)
    {
      InFreeSet(chain, i);
      InFreeSet(chain, i + 1);
      BlocksDisjoint(mem, FreeSet(chain) + live, owner, chain[i], chain[i + 1]);
    }
  }
}

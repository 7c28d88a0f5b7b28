/**
  The physical page allocator, whose free list is threaded through the free pages, and the
  page table operations of user memory: walk, mappages, uvmunmap, uvmcreate, uvmalloc,
  uvmdealloc, uvmcopy, freewalk and uvmfree. Any kalloc may find the free list empty.
 */
module VirtualMemory {
  import opened PageTables

  const PGSIZE := 4096
  const MAXVPN := 0x400_0000
  const MAXVA := MAXVPN * PGSIZE

  const PTE_V := 1
  const PTE_R := 2
  const PTE_U := 16

  /** A page filled with one word. */
  function Fill(w: nat): (p: Page)
  {
    seq(NPTE, _ => w)
  }

  const JUNKFREE := 0x0101_0101_0101_0101
  const JUNKNEW := 0x0505_0505_0505_0505

  // ---------------------------------------------------------------- the free list

  /** From head, the first words of the pages link exactly the pages of free. */
  ghost predicate Chain(mem: Memory, head: nat, free: seq<nat>)
    decreases |free|
  {
    if free == [] then head == 0
    else 0 < free[0] < |mem| && head == free[0] * PGSIZE && Chain(mem, mem[free[0]][0], free[1..])
  }

  lemma {:induction false} ChainFrame(mem: Memory, mem': Memory, head: nat, free: seq<nat>)
    requires Chain(mem, head, free) && |mem'| == |mem|
    requires forall p :: p in free && p < |mem| ==> mem'[p] == mem[p]
    ensures Chain(mem', head, free)
    decreases |free|
  {
    if free != [] {
      ChainFrame(mem, mem', mem[free[0]][0], free[1..]);
    }
  }

  /** The free pages and the pages in use: every managed page is one or the other, once. */
  ghost predicate Partition(first: nat, limit: nat, owner: map<nat, Use>, free: seq<nat>)
  {
    && (forall p :: first <= p < limit <==> p in owner || p in free)
    && (forall p :: p in owner ==> p !in free)
    && (forall i, j :: 0 <= i < j < |free| ==> free[i] != free[j])
  }

  lemma {:induction false} PartitionTake(first: nat, limit: nat, owner: map<nat, Use>, free: seq<nat>, u: Use)
    requires Partition(first, limit, owner, free) && free != []
    ensures Partition(first, limit, owner[free[0] := u], free[1..]) && free[0] !in free[1..] && free[0] !in owner
    ensures first <= free[0] < limit
  {
    assert free == [free[0]] + free[1..];
    assert free[0] in free;
    forall p
      ensures p in free <==> p == free[0] || p in free[1..]
    {
    }
  }

  lemma {:induction false} PartitionGive(first: nat, limit: nat, owner: map<nat, Use>, free: seq<nat>, p: nat)
    requires Partition(first, limit, owner, free) && p in owner
    ensures Partition(first, limit, owner - {p}, [p] + free)
  {
  }

  lemma {:induction false} PartitionUse(first: nat, limit: nat, owner: map<nat, Use>, free: seq<nat>, p: nat, u: Use)
    requires Partition(first, limit, owner, free) && p in owner
    ensures Partition(first, limit, owner[p := u], free)
  {
  }

  // ---------------------------------------------------------------- what an operation leaves alone

  /** Every use of a page is still there, and pages other than tables have their contents. */
  ghost predicate Kept(mem0: Memory, owner0: map<nat, Use>, mem: Memory, owner: map<nat, Use>)
  {
    && |mem| == |mem0|
    && (forall p :: p in owner0 ==> p in owner && owner[p] == owner0[p])
    && (forall p :: p in owner0 && !owner0[p].Table? && p < |mem0| ==> mem[p] == mem0[p])
  }

  /** New uses: tables under root r, and user pages of r from lo to hi. */
  ghost predicate OnlyNew(owner0: map<nat, Use>, owner: map<nat, Use>, r: nat, lo: nat, hi: nat)
  {
    forall p :: p in owner && p !in owner0 ==>
      && owner[p] != Loose && owner[p].root == r
      && (owner[p].Table? ==> owner[p].path != Root)
      && (owner[p].Leaf? ==> lo <= owner[p].vpn < hi)
  }

  /** No translation changed except those of root r from lo to hi. */
  ghost predicate PtesKept(owner0: map<nat, Use>, mem0: Memory, mem: Memory, r: nat, lo: nat, hi: nat)
  {
    forall r', v :: IsRoot(owner0, r') && 0 <= v < NVPN && !(r' == r && lo <= v < hi) ==> Pte(mem, r', v) == Pte(mem0, r', v)
  }

  /** Root r has a lowest-level table for virtual page v. */
  predicate Had(mem: Memory, r: nat, v: nat)
  {
    NodeAt(mem, r, TablePath(v)) != 0
  }

  ghost predicate HasTable(owner: map<nat, Use>, r: nat, v: nat)
  {
    exists t :: t in owner && owner[t] == Table(r, TablePath(v))
  }

  /** Root r has a lowest-level table for every page from lo to hi. */
  ghost predicate AllTables(owner: map<nat, Use>, r: nat, lo: nat, hi: nat)
  {
    forall v :: lo <= v < hi ==> HasTable(owner, r, v)
  }

  /** Some page-table page is in use that was not. */
  ghost predicate NewTable(owner0: map<nat, Use>, owner: map<nat, Use>)
  {
    exists t :: t in owner && t !in owner0 && owner[t].Table?
  }

  /**
    The tables that mapping virtual page v makes: none if its lowest-level table is there, and then
    memory cannot run out; otherwise one at least, unless no page is free.
   */
  ghost predicate Tables(owner0: map<nat, Use>, free0: seq<nat>, owner: map<nat, Use>, free: seq<nat>, r: nat, v: nat, res: MapResult)
  {
    && (HasTable(owner0, r, v) ==> owner == owner0 && free == free0 && !res.NoMemory?)
    && (!HasTable(owner0, r, v) && v < MAXVPN && free0 == [] ==> owner == owner0 && free == free0 && res.NoMemory?)
    && (!HasTable(owner0, r, v) && v < MAXVPN && free0 != [] ==> NewTable(owner0, owner))
  }

  /**
    What adding a user page at v costs, of n0 free pages: that page alone if v has its lowest-level
    table; otherwise tables too, and some are made exactly if two pages were free.
   */
  ghost predicate Spent(owner0: map<nat, Use>, n0: nat, owner: map<nat, Use>, n: nat, r: nat, v: nat, res: MapResult)
  {
    if HasTable(owner0, r, v) || v >= MAXVPN then !NewTable(owner0, owner) && if res.Mapped? then n + 1 == n0 else n0 == 0
    else (NewTable(owner0, owner) <==> n0 >= 2) && (res.Mapped? ==> n0 >= 2)
  }

  lemma {:induction false} NothingSpent(owner: map<nat, Use>, r: nat, v: nat)
    ensures Spent(owner, 0, owner, 0, r, v, NoMemory)
  {
  }

  lemma {:induction false} PageSpent(owner0: map<nat, Use>, free0: seq<nat>, mem0: Memory, mem1: Memory, owner1: map<nat, Use>, free1: seq<nat>,
                                     owner2: map<nat, Use>, free2: seq<nat>, owner: map<nat, Use>, n: nat, r: nat, v: nat, p: nat, res: MapResult)
    requires Fresh(mem0, owner0, mem1, owner1, p) && free0 != [] && free1 == free0[1..] && Tables(owner1, free1, owner2, free2, r, v, res)
    requires p in owner2 && (v >= MAXVPN ==> res.Remap?)
    requires (res.Mapped? && owner == owner2[p := Leaf(r, v)] && n == |free2|) || (res.NoMemory? && owner == owner2 - {p})
    ensures Spent(owner0, |free0|, owner, n, r, v, res)
  {
    assert HasTable(owner0, r, v) <==> HasTable(owner1, r, v) by {
      if HasTable(owner0, r, v) {
        var t :| t in owner0 && owner0[t] == Table(r, TablePath(v));
        assert t in owner1 && owner1[t] == Table(r, TablePath(v));
      }
    }
    hide HasTable;
    if NewTable(owner1, owner2) {
      var t :| t in owner2 && t !in owner1 && owner2[t].Table?;
      assert t in owner && t !in owner0 && owner[t].Table?;
    }
  }

  /**
    The first page from lo to hi without a lowest-level table is reached with two free pages left,
    of the n0 at the start: the pages before it cost one each.
   */
  ghost predicate Spends(mem: Memory, r: nat, lo: nat, hi: nat, n0: nat)
  {
    exists v :: lo <= v < hi && !Had(mem, r, v) && n0 >= v - lo + 2
  }

  ghost predicate SpendsTables(owner: map<nat, Use>, r: nat, lo: nat, hi: nat, n0: nat)
  {
    exists v :: lo <= v < hi && !HasTable(owner, r, v) && n0 >= v - lo + 2
  }

  lemma {:induction false} SpendsIff(mem: Memory, owner: map<nat, Use>, r: nat, lo: nat, hi: nat, n0: nat)
    requires TreesOk(mem, owner, NoHole) && IsRoot(owner, r)
    ensures Spends(mem, r, lo, hi, n0) <==> SpendsTables(owner, r, lo, hi, n0)
  {
    forall v
      ensures Had(mem, r, v) <==> HasTable(owner, r, v)
    {
      HadIff(mem, owner, r, v);
    }
    hide Had, HasTable, TreesOk;
  }

  ghost predicate UsesKept(owner0: map<nat, Use>, owner: map<nat, Use>)
  {
    forall p :: p in owner0 ==> p in owner && owner[p] == owner0[p]
  }

  /** Where n free pages are left of n0 when the pages from lo to a are done. */
  ghost predicate Budget(owner0: map<nat, Use>, n0: nat, owner: map<nat, Use>, n: nat, r: nat, lo: nat, a: nat)
  {
    if AllTables(owner0, r, lo, a) then !NewTable(owner0, owner) && n + (a - lo) == n0
    else NewTable(owner0, owner) && SpendsTables(owner0, r, lo, a, n0)
  }

  lemma {:induction false} SameTableFor(owner0: map<nat, Use>, owner: map<nat, Use>, r: nat, v: nat)
    requires UsesKept(owner0, owner) && !NewTable(owner0, owner)
    ensures HasTable(owner, r, v) <==> HasTable(owner0, r, v)
  {
  }

  lemma {:induction false} BudgetStep(owner0: map<nat, Use>, n0: nat, owner1: map<nat, Use>, n1: nat, owner2: map<nat, Use>, n2: nat,
                                      r: nat, lo: nat, v: nat, hi: nat, res: MapResult)
    requires UsesKept(owner0, owner1) && UsesKept(owner1, owner2) && lo <= v < hi
    requires Budget(owner0, n0, owner1, n1, r, lo, v) && !res.Remap? && Spent(owner1, n1, owner2, n2, r, v, res) && (res.Mapped? ==> v < MAXVPN)
    ensures res.Mapped? ==> Budget(owner0, n0, owner2, n2, r, lo, v + 1)
    ensures res.NoMemory? ==> (NewTable(owner0, owner2) <==> SpendsTables(owner0, r, lo, hi, n0))
  {
    if NewTable(owner0, owner1) {
      var t :| t in owner1 && t !in owner0 && owner1[t].Table?;
      assert t in owner2;
    } else {
      SameTableFor(owner0, owner1, r, v);
      hide HasTable;
      assert NewTable(owner0, owner2) <==> NewTable(owner1, owner2);
    }
  }

  lemma {:induction false} GrownUses(mem0: Memory, owner0: map<nat, Use>, mem: Memory, owner: map<nat, Use>, r: nat, lo: nat, hi: nat)
    requires Grown(mem0, owner0, mem, owner, r, lo, hi)
    ensures UsesKept(owner0, owner)
    ensures lo >= hi ==> (owner == owner0 <==> !NewTable(owner0, owner))
  {
    hide PtesKept;
    if lo >= hi && !NewTable(owner0, owner) {
      forall p | p in owner
        ensures p in owner0
      {
      }
    }
  }

  lemma {:induction false} TablesStay(mem0: Memory, owner0: map<nat, Use>, mem1: Memory, owner1: map<nat, Use>, mem2: Memory, owner2: map<nat, Use>,
                                      r: nat, lo: nat, hi: nat)
    requires Shrunk(mem1, owner1, mem2, owner2, r, lo, hi)
    ensures NewTable(owner0, owner2) <==> NewTable(owner0, owner1)
  {
    hide Pte, PtesKept;
    if NewTable(owner0, owner1) {
      var t :| t in owner1 && t !in owner0 && owner1[t].Table?;
      assert t in owner2;
    }
  }

  /** The record of uses and the tree agree on which lowest-level tables there are. */
  lemma {:induction false} HadIff(mem: Memory, owner: map<nat, Use>, r: nat, v: nat)
    requires TreesOk(mem, owner, NoHole) && IsRoot(owner, r)
    ensures Had(mem, r, v) <==> HasTable(owner, r, v)
  {
    hide NodeAt;
    if Had(mem, r, v) {
      TheTable(mem, owner, NoHole, r, TablePath(v));
    }
  }

  lemma {:induction false} NewTableKept(mem0: Memory, owner0: map<nat, Use>, mem1: Memory, owner1: map<nat, Use>, mem2: Memory, owner2: map<nat, Use>,
                                        r: nat, lo: nat, hi: nat)
    requires Grown(mem1, owner1, mem2, owner2, r, lo, hi) && NewTable(owner0, owner1)
    ensures NewTable(owner0, owner2)
  {
    hide PtesKept;
    var t :| t in owner1 && t !in owner0 && owner1[t].Table?;
    assert t in owner2;
  }

  ghost predicate Grown(mem0: Memory, owner0: map<nat, Use>, mem: Memory, owner: map<nat, Use>, r: nat, lo: nat, hi: nat)
  {
    Kept(mem0, owner0, mem, owner) && OnlyNew(owner0, owner, r, lo, hi) && PtesKept(owner0, mem0, mem, r, lo, hi)
  }

  lemma {:induction false} GrownTrans(mem0: Memory, owner0: map<nat, Use>, mem1: Memory, owner1: map<nat, Use>, mem2: Memory, owner2: map<nat, Use>,
                                      r: nat, lo: nat, hi: nat)
    requires Grown(mem0, owner0, mem1, owner1, r, lo, hi) && Grown(mem1, owner1, mem2, owner2, r, lo, hi)
    ensures Grown(mem0, owner0, mem2, owner2, r, lo, hi)
  {
    hide Pte;
    assert forall r' :: IsRoot(owner0, r') ==> IsRoot(owner1, r');
  }

  lemma {:induction false} GrownWiden(mem0: Memory, owner0: map<nat, Use>, mem: Memory, owner: map<nat, Use>, r: nat, lo: nat, hi: nat, lo': nat, hi': nat)
    requires Grown(mem0, owner0, mem, owner, r, lo, hi) && (lo < hi ==> lo' <= lo && hi <= hi')
    ensures Grown(mem0, owner0, mem, owner, r, lo', hi')
  {
    hide Pte;
  }

  lemma {:induction false} GrownSelf(mem: Memory, owner: map<nat, Use>, r: nat, lo: nat, hi: nat)
    ensures Grown(mem, owner, mem, owner, r, lo, hi)
  {
  }

  ghost function AllLoose(lo: nat, hi: nat): (m: map<nat, Use>)
    ensures forall p :: p in m <==> lo <= p < hi
    ensures forall p :: p in m ==> m[p] == Loose
    decreases hi - lo
  {
    if lo >= hi then map[] else AllLoose(lo + 1, hi)[lo := Loose]
  }

  /** The pages of root r from lo to hi went out of use with their translations; nothing else changed. */
  ghost predicate Shrunk(mem0: Memory, owner0: map<nat, Use>, mem: Memory, owner: map<nat, Use>, r: nat, lo: nat, hi: nat)
  {
    && |mem| == |mem0|
    && (forall p :: p in owner <==> p in owner0 && !(owner0[p].Leaf? && owner0[p].root == r && lo <= owner0[p].vpn < hi))
    && (forall p :: p in owner ==> p in owner0 && owner[p] == owner0[p])
    && (forall p :: p in owner && !owner[p].Table? && p < |mem| ==> mem[p] == mem0[p])
    && PtesKept(owner0, mem0, mem, r, lo, hi)
    && forall v :: lo <= v < hi && v < NVPN ==> Pte(mem, r, v) == 0
  }

  lemma {:induction false} ShrunkMore(mem0: Memory, owner0: map<nat, Use>, mem1: Memory, owner1: map<nat, Use>, mem2: Memory, owner2: map<nat, Use>,
                                      r: nat, lo: nat, hi: nat)
    requires Shrunk(mem0, owner0, mem1, owner1, r, lo, hi) && Shrunk(mem1, owner1, mem2, owner2, r, hi, hi + 1) && lo <= hi && IsRoot(owner0, r)
    ensures Shrunk(mem0, owner0, mem2, owner2, r, lo, hi + 1)
  {
    hide Pte;
    assert forall r' :: IsRoot(owner0, r') ==> IsRoot(owner1, r');
  }

  lemma {:induction false} ShrunkSelf(mem: Memory, owner: map<nat, Use>, r: nat, lo: nat)
    ensures Shrunk(mem, owner, mem, owner, r, lo, lo)
  {
    hide Pte;
  }

  /** Valid entries from lo to hi map pages that are in use for just that. */
  ghost predicate Owned(mem: Memory, owner: map<nat, Use>, r: nat, lo: nat, hi: nat)
  {
    forall v :: lo <= v < hi && v < NVPN && Present(Pte(mem, r, v)) ==> Ppn(Pte(mem, r, v)) in owner && owner[Ppn(Pte(mem, r, v))] == Leaf(r, v)
  }

  ghost predicate NoneOwned(owner: map<nat, Use>, r: nat, lo: nat, hi: nat)
  {
    forall p :: p in owner && owner[p].Leaf? && owner[p].root == r ==> !(lo <= owner[p].vpn < hi)
  }

  ghost predicate AllMapped(mem: Memory, r: nat, lo: nat, hi: nat)
  {
    (lo < hi ==> hi <= MAXVPN) && forall v :: lo <= v < hi ==> Present(Pte(mem, r, v))
  }

  ghost predicate Unmappable(mem: Memory, owner: map<nat, Use>, r: nat, lo: nat, hi: nat, doFree: bool)
  {
    if doFree then Owned(mem, owner, r, lo, hi) else NoneOwned(owner, r, lo, hi)
  }

  /** Unmapping below k leaves the rest of the range as it was. */
  lemma {:induction false} StillUnmappable(mem0: Memory, owner0: map<nat, Use>, mem: Memory, owner: map<nat, Use>, r: nat, lo: nat, k: nat, hi: nat, doFree: bool)
    requires Shrunk(mem0, owner0, mem, owner, r, lo, k) && Unmappable(mem0, owner0, r, lo, hi, doFree) && IsRoot(owner0, r) && lo <= k <= hi
    ensures Unmappable(mem, owner, r, k, hi, doFree) && IsRoot(owner, r)
    ensures forall v :: k <= v < NVPN ==> Pte(mem, r, v) == Pte(mem0, r, v)
  {
    hide Pte;
  }

  /** The table on the way to virtual page v, before walk's loop reaches level. */
  function PathAt(level: nat, v: nat): (q: Path)
    requires level <= 2
    ensures Depth(q) == 2 - level
  {
    if level == 2 then Root else if level == 1 then Step(Root, Px2(v)) else TablePath(v)
  }

  function Px(level: nat, v: nat): (i: nat)
    ensures i < NPTE
  {
    if level == 2 then Px2(v) else if level == 1 then Px1(v) else Px0(v)
  }

  lemma {:induction false} NoTableNoPte(mem: Memory, r: nat, level: nat, v: nat)
    requires 0 < level <= 2 && NodeAt(mem, r, PathAt(level - 1, v)) == 0
    ensures Pte(mem, r, v) == 0
  {
  }

  lemma {:induction false} HadAbove(mem: Memory, r: nat, level: nat, v: nat)
    requires 0 < level <= 2 && Had(mem, r, v)
    ensures NodeAt(mem, r, PathAt(level - 1, v)) != 0
  {
  }

  datatype Walked = WalkPanic | Null | At(page: nat, index: nat)

  datatype MapResult = Mapped | NoMemory | Remap

  /** perm | PTE_V */
  function WithV(perm: nat): (f: nat)
    ensures f % 2 == 1 && (perm < 1024 ==> f < 1024)
  {
    if perm % 2 == 1 then perm else perm + 1
  }

  predicate PermOk(perm: nat)
  {
    perm < 1024 && HasRwx(perm)
  }

  lemma {:induction false} LeafPte(p: nat, perm: nat)
    requires PermOk(perm)
    ensures WithV(perm) < 1024 && EntryOk(MakePte(p, WithV(perm)), 2) && Target(MakePte(p, WithV(perm))) == p
  {
    var f := WithV(perm);
    assert f % 16 >= 2;
    LowBits(64 * p, f);
    assert MakePte(p, f) % 16 == f % 16;
  }

  lemma {:induction false} ValidFlags(perm: nat)
    requires PermOk(perm)
    ensures WithV(perm) < 1024 && WithV(perm) % 2 == 1
  {
  }

  lemma {:induction false} LowBits(k: nat, f: nat)
    ensures (16 * k + f) % 16 == f % 16
  {
  }

  class Machine {
    const first: nat
    const limit: nat
    var mem: Memory
    var freelist: nat
    ghost var free: seq<nat>
    ghost var owner: map<nat, Use>

    ghost predicate ValidExcept(h: Hole)
      reads this
    {
      && 0 < first <= limit == |mem|
      && Chain(mem, freelist, free)
      && Partition(first, limit, owner, free)
      && TreesOk(mem, owner, h)
    }

    ghost predicate Valid()
      reads this
    {
      ValidExcept(NoHole)
    }

    /** kinit: freerange from end to PHYSTOP puts every whole page between them on the free list. */
    constructor (end: nat, phystop: nat)
      requires 0 < end <= phystop / PGSIZE * PGSIZE
      ensures Valid() && owner == map[] && first == (end + PGSIZE - 1) / PGSIZE && limit == phystop / PGSIZE
      ensures forall p :: p in free <==> end <= p * PGSIZE && p * PGSIZE + PGSIZE <= phystop
      ensures |free| == phystop / PGSIZE - (end + PGSIZE - 1) / PGSIZE
    {
      first := (end + PGSIZE - 1) / PGSIZE;
      limit := phystop / PGSIZE;
      mem := seq(phystop / PGSIZE, _ => Fill(0));
      freelist := 0;
      free := [];
      owner := AllLoose((end + PGSIZE - 1) / PGSIZE, phystop / PGSIZE);
      new;
      var p := first;
      while p * PGSIZE + PGSIZE <= phystop
        invariant first <= p <= limit && |free| == p - first
        invariant ValidExcept(NoHole) && forall q :: q in owner <==> p <= q < limit
        invariant forall q :: q in owner ==> owner[q] == Loose
        decreases limit - p
      {
        var ok := Kfree(p, NoHole);
        p := p + 1;
      }
    }

    /** kfree: panics outside the managed pages; otherwise the page goes to the front of the free list. */
    method Kfree(p: nat, ghost h: Hole) returns (ok: bool)
      requires ValidExcept(h) && (first <= p < limit ==> p in owner && owner[p] == Loose)
      modifies this
      ensures ok <==> first <= p < limit
      ensures !ok ==> mem == old(mem) && free == old(free) && owner == old(owner)
      ensures ok ==> ValidExcept(h) && free == [p] + old(free) && owner == old(owner) - {p}
      ensures ok ==> |mem| == old(|mem|) && forall q :: 0 <= q < |mem| && q != p ==> mem[q] == old(mem[q])
    {
      if p < first || p >= limit {
        return false;
      }
      PartitionGive(first, limit, owner, free, p);
      hide Partition;
      ghost var mem0 := mem;
      mem := mem[p := Fill(JUNKFREE)];
      mem := mem[p := mem[p][0 := freelist]];
      freelist := p * PGSIZE;
      TreesFrame(mem0, mem, owner, owner - {p}, h);
      assert p !in free by {
        NotFree(first, limit, owner, free, p);
      }
      ChainFrame(mem0, mem, old(freelist), free);
      free := [p] + free;
      owner := owner - {p};
      assert free[1..] == old(free);
      return true;
    }

    /** kalloc: the first free page, filled with junk; 0 when there is none. */
    method Kalloc() returns (p: nat)
      requires Valid()
      modifies this
      ensures Valid()
      ensures p == 0 <==> old(free) == []
      ensures p == 0 ==> mem == old(mem) && freelist == old(freelist) && free == old(free) && owner == old(owner)
      ensures p != 0 ==> p == old(free)[0] && free == old(free)[1..] && p !in old(owner) && first <= p < limit == old(|mem|)
      ensures p != 0 ==> owner == old(owner)[p := Loose] && mem == old(mem)[p := Fill(JUNKNEW)]
    {
      if freelist == 0 {
        return 0;
      }
      PartitionTake(first, limit, owner, free, Loose);
      hide Partition;
      p := freelist / PGSIZE;
      assert p == free[0];
      freelist := mem[p][0];
      ghost var mem0 := mem;
      mem := mem[p := Fill(JUNKNEW)];
      ChainFrame(mem0, mem, freelist, free[1..]);
      TreesFrame(mem0, mem, owner, owner[p := Loose], NoHole);
      free := free[1..];
      owner := owner[p := Loose];
    }

    /** New contents for a page the kernel holds. */
    method SetPage(c: nat, data: Page)
      requires Valid() && c in owner && owner[c] == Loose
      modifies this`mem
      ensures Valid() && c < old(|mem|) && mem == old(mem)[c := data]
    {
      hide Recorded, EntriesOk, Partition;
      InRange(mem, owner, NoHole, c);
      NotFree(first, limit, owner, free, c);
      ghost var mem0 := mem;
      mem := mem[c := data];
      ChainFrame(mem0, mem, freelist, free);
      TreesFrame(mem0, mem, owner, owner, NoHole);
    }

    /** One turn of walk's loop: the table below entry i of the table n at q, made if need be. */
    method Descend(r: nat, n: nat, ghost q: Path, i: nat, alloc: bool) returns (next: nat)
      requires Valid() && IsRoot(owner, r) && Depth(q) < 2 && i < NPTE && n == NodeAt(mem, r, q) != 0
      modifies this
      ensures Valid() && Grown(old(mem), old(owner), mem, owner, r, 0, 0)
      ensures next == NodeAt(mem, r, Step(q, i))
      ensures next == 0 || !alloc || old(NodeAt(mem, r, Step(q, i))) != 0 ==>
        mem == old(mem) && freelist == old(freelist) && free == old(free) && owner == old(owner)
      ensures next == 0 && alloc ==> free == []
      ensures next != 0 && old(NodeAt(mem, r, Step(q, i))) == 0 ==> old(free) != [] && NewTable(old(owner), owner)
    {
      hide Partition, TreesOk, Chain, Grown, NodeAt, SetEntry, MakePte;
      TheTable(mem, owner, NoHole, r, q);
      EntryHere(mem, owner, r, q, i);
      GrownSelf(mem, owner, r, 0, 0);
      if Present(mem[n][i]) {
        return Ppn(mem[n][i]);
      }
      if !alloc {
        return 0;
      }
      next := Kalloc();
      if next == 0 {
        return 0;
      }
      SetPage(next, ZeroPage());
      ghost var mem0, owner0 := old(mem), old(owner);
      assert mem == mem0[next := ZeroPage()];
      FreshPage(mem0, owner0, mem, next, r, q, i);
      ghost var mem1 := mem;
      mem := SetEntry(mem, n, i, MakePte(next, PTE_V));
      AttachTable(mem1, owner, r, q, i, next);
      AttachGrows(mem0, owner0, mem1, mem, owner, r, q, i, next);
      EntrySet(mem1, n, i, MakePte(next, PTE_V));
      KeepList(mem1, mem, freelist, first, limit, owner, free, n);
      PartitionUse(first, limit, owner, free, next, Table(r, Step(q, i)));
      owner := owner[next := Table(r, Step(q, i))];
    }

    /**
      walk: panics beyond MAXVA; otherwise the place of the leaf entry for va, or null when there
      is no lowest table for it and none was wanted or could be made. The map the tree denotes
      does not change, whatever tables were added on the way.
     */
    method Walk(r: nat, va: nat, alloc: bool) returns (w: Walked)
      requires Valid() && IsRoot(owner, r)
      modifies this
      ensures Valid() && IsRoot(owner, r) && Grown(old(mem), old(owner), mem, owner, r, 0, 0)
      ensures w.WalkPanic? <==> va >= MAXVA
      ensures w.Null? ==> Pte(mem, r, va / PGSIZE) == 0 && (alloc ==> free == [])
      ensures w.At? ==> w.page == NodeAt(mem, r, TablePath(va / PGSIZE)) != 0 && w.index == Px0(va / PGSIZE)
      ensures !alloc || w.WalkPanic? || old(Had(mem, r, va / PGSIZE)) || old(free) == [] ==>
        mem == old(mem) && freelist == old(freelist) && free == old(free) && owner == old(owner)
      ensures old(Had(mem, r, va / PGSIZE)) ==> !w.Null?
      ensures va < MAXVA && !old(Had(mem, r, va / PGSIZE)) && (!alloc || old(free) == []) ==> w.Null?
      ensures va < MAXVA && !old(Had(mem, r, va / PGSIZE)) && alloc && old(free) != [] ==> NewTable(old(owner), owner)
    {
      GrownSelf(mem, owner, r, 0, 0);
      RootHere(mem, owner, r);
      hide Grown, Valid, Pte, PathAt, Px0, NewTable;
      if va >= MAXVA {
        return WalkPanic;
      }
      var v := va / PGSIZE;
      Paths(v);
      ghost var had := Had(mem, r, v);
      var n, level := r, 2;
      while level > 0
        invariant 0 <= level <= 2 && Valid() && IsRoot(owner, r)
        invariant Grown(old(mem), old(owner), mem, owner, r, 0, 0)
        invariant n == NodeAt(mem, r, PathAt(level, v)) != 0
        invariant !alloc || had || old(free) == [] ==> mem == old(mem) && freelist == old(freelist) && free == old(free) && owner == old(owner)
        invariant (mem == old(mem) && free == old(free)) || NewTable(old(owner), owner)
      {
        ghost var mem1, owner1 := mem, owner;
        if had {
          HadAbove(mem, r, level, v);
        }
        n := Descend(r, n, PathAt(level, v), Px(level, v), alloc);
        GrownTrans(old(mem), old(owner), mem1, owner1, mem, owner, r, 0, 0);
        GrownRoot(mem1, owner1, mem, owner, r, 0, 0, r);
        if NewTable(old(owner), owner1) {
          NewTableKept(old(mem), old(owner), mem1, owner1, mem, owner, r, 0, 0);
        }
        level := level - 1;
        if n == 0 {
          NoTableNoPte(mem, r, level + 1, v);
          return Null;
        }
      }
      return At(n, Px(0, v));
    }

    /** One turn of mappages' loop. */
    method MapPage(r: nat, v: nat, p: nat, perm: nat) returns (res: MapResult)
      requires Valid() && IsRoot(owner, r) && PermOk(perm)
      modifies this
      ensures res.Remap? <==> v >= MAXVPN || Present(old(Pte(mem, r, v)))
      ensures Valid() && IsRoot(owner, r)
      ensures res.Mapped? ==> Grown(old(mem), old(owner), mem, owner, r, v, v + 1) && Pte(mem, r, v) == MakePte(p, WithV(perm))
      ensures !res.Mapped? ==> Grown(old(mem), old(owner), mem, owner, r, 0, 0)
      ensures res.NoMemory? ==> free == []
      ensures Tables(old(owner), old(free), owner, free, r, v, res)
    {
      hide Grown, Valid, Pte, Px0, TablePath, HasTable, NewTable;
      HadHere(r, v);
      var w := Walk(r, v * PGSIZE, true);
      if w.WalkPanic? {
        return Remap;
      }
      SamePte(old(mem), old(owner), mem, owner, r, v);
      if w.Null? {
        return NoMemory;
      }
      PteHere(r, v);
      if Present(mem[w.page][w.index]) {
        return Remap;
      }
      LeafPte(p, perm);
      NoLeafHere(r, v);
      ghost var mem1, owner1 := mem, owner;
      WritePte(r, v, w.page, MakePte(p, WithV(perm)));
      GrownWiden(old(mem), old(owner), mem1, owner1, r, 0, 0, v, v + 1);
      GrownTrans(old(mem), old(owner), mem1, owner1, mem, owner, r, v, v + 1);
      return Mapped;
    }

    lemma {:induction false} HadHere(r: nat, v: nat)
      requires Valid() && IsRoot(owner, r)
      ensures Had(mem, r, v) <==> HasTable(owner, r, v)
    {
      HadIff(mem, owner, r, v);
    }

    lemma {:induction false} NoLeafHere(r: nat, v: nat)
      requires Valid() && !Present(Pte(mem, r, v))
      ensures forall p :: p in owner ==> owner[p] != Leaf(r, v)
    {
      NotOwned(mem, owner, r, v);
    }

    lemma {:induction false} PteHere(r: nat, v: nat)
      requires Valid() && IsRoot(owner, r) && NodeAt(mem, r, TablePath(v)) != 0
      ensures 0 < NodeAt(mem, r, TablePath(v)) < |mem| && Pte(mem, r, v) == mem[NodeAt(mem, r, TablePath(v))][Px0(v)]
      ensures EntryOk(Pte(mem, r, v), 2)
    {
      EntryHere(mem, owner, r, TablePath(v), Px0(v));
    }

    /** Stores a leaf entry for a virtual page that no user page is in use for. */
    method WritePte(r: nat, v: nat, n: nat, w: nat)
      requires Valid() && IsRoot(owner, r) && v < NVPN && n == NodeAt(mem, r, TablePath(v)) != 0
      requires EntryOk(w, 2) && forall p :: p in owner ==> owner[p] != Leaf(r, v)
      modifies this`mem
      ensures Valid() && Grown(old(mem), owner, mem, owner, r, v, v + 1) && Pte(mem, r, v) == w
    {
      TheTable(mem, owner, NoHole, r, TablePath(v));
      ghost var mem0 := mem;
      hide NodeAt, Pte, TreesOk, Px0, TablePath, Partition, Chain;
      SetLeaf(mem, owner, r, v, w);
      mem := SetEntry(mem, n, Px0(v), w);
      KeepList(mem0, mem, freelist, first, limit, owner, free, n);
    }

    /**
      mappages: success maps exactly the pages that va and size touch, in order; it panics when
      one of them is mapped or out of range. When memory runs out, the first done pages stay
      mapped. No other translation ever changes.
     */
    method Mappages(r: nat, va: nat, size: nat, pa: nat, perm: nat) returns (res: MapResult, done: nat)
      requires Valid() && IsRoot(owner, r) && PermOk(perm)
      modifies this
      ensures size == 0 || va >= MAXVA ==> res.Remap?
      ensures Valid() && IsRoot(owner, r) && done <= MAXVPN
      ensures Grown(old(mem), old(owner), mem, owner, r, va / PGSIZE, va / PGSIZE + done)
      ensures MappedRun(old(mem), mem, r, va / PGSIZE, done, pa / PGSIZE, WithV(perm))
      ensures res.Mapped? ==> done == PagesTouched(va, size)
      ensures !res.Mapped? && size > 0 ==> done < PagesTouched(va, size)
      ensures res.NoMemory? ==> free == []
      ensures res.Remap? && size > 0 ==> va / PGSIZE + done >= MAXVPN || Present(old(Pte(mem, r, va / PGSIZE + done)))
      ensures AllTables(old(owner), r, va / PGSIZE, va / PGSIZE + PagesTouched(va, size)) ==> owner == old(owner) && free == old(free) && !res.NoMemory?
      ensures size > 0 && va < MAXVA && !HasTable(old(owner), r, va / PGSIZE) ==>
        if old(free) == [] then res.NoMemory? && owner == old(owner) && free == [] else NewTable(old(owner), owner)
    {
      hide Grown, Valid, Pte, MappedRun, HasTable, NewTable;
      var a, last, p := va / PGSIZE, (va + size - 1) / PGSIZE, pa / PGSIZE;
      GrownSelf(mem, owner, r, a, a);
      MappedNone(mem, r, a, p, WithV(perm));
      done := 0;
      if size == 0 {
        return Remap, 0;
      }
      TouchedPages(va, size);
      while true
        invariant a == va / PGSIZE + done && p == pa / PGSIZE + done && a <= last && a <= MAXVPN + va / PGSIZE
        invariant Valid() && IsRoot(owner, r) && Grown(old(mem), old(owner), mem, owner, r, va / PGSIZE, a)
        invariant MappedRun(old(mem), mem, r, va / PGSIZE, done, pa / PGSIZE, WithV(perm))
        invariant done > 0 ==> va < MAXVA
        invariant done == 0 || AllTables(old(owner), r, va / PGSIZE, last + 1) ==> owner == old(owner) && free == old(free)
        invariant done > 0 && !HasTable(old(owner), r, va / PGSIZE) ==> old(free) != [] && NewTable(old(owner), owner)
        decreases last - a
      {
        res := MapNext(r, va / PGSIZE, done, pa / PGSIZE, perm, old(mem), old(owner));
        if !res.Mapped? {
          return;
        }
        done := done + 1;
        if a == last {
          break;
        }
        a := a + 1;
        p := p + 1;
      }
      return Mapped, done;
    }

    /** One more page, seen from the start of mappages. */
    method MapNext(r: nat, a0: nat, done: nat, p0: nat, perm: nat, ghost mem0: Memory, ghost owner0: map<nat, Use>) returns (res: MapResult)
      requires Valid() && IsRoot(owner, r) && PermOk(perm) && IsRoot(owner0, r) && Grown(mem0, owner0, mem, owner, r, a0, a0 + done)
      requires MappedRun(mem0, mem, r, a0, done, p0, WithV(perm))
      modifies this
      ensures Valid() && IsRoot(owner, r)
      ensures res.Mapped? ==> a0 + done < MAXVPN && Grown(mem0, owner0, mem, owner, r, a0, a0 + done + 1) && MappedRun(mem0, mem, r, a0, done + 1, p0, WithV(perm))
      ensures !res.Mapped? ==> Grown(mem0, owner0, mem, owner, r, a0, a0 + done) && MappedRun(mem0, mem, r, a0, done, p0, WithV(perm))
      ensures res.NoMemory? ==> free == []
      ensures res.Remap? ==> a0 + done >= MAXVPN || Present(Pte(mem0, r, a0 + done))
      ensures a0 + done >= MAXVPN ==> res.Remap?
      ensures Tables(old(owner), old(free), owner, free, r, a0 + done, res)
      ensures NewTable(owner0, old(owner)) ==> NewTable(owner0, owner)
    {
      hide Grown, Valid, Pte, Tables, NewTable;
      ghost var mem1, owner1 := mem, owner;
      var a := a0 + done;
      PtesOutside(mem0, owner0, mem, owner, r, a0, a);
      res := MapPage(r, a, p0 + done, perm);
      if NewTable(owner0, owner1) {
        NewTableKept(mem0, owner0, mem1, owner1, mem, owner, r, if res.Mapped? then a else 0, if res.Mapped? then a + 1 else 0);
      }
      if !res.Mapped? {
        GrownWiden(mem1, owner1, mem, owner, r, 0, 0, a0, a);
        GrownTrans(mem0, owner0, mem1, owner1, mem, owner, r, a0, a);
        PtesOutside(mem1, owner1, mem, owner, r, 0, 0);
        RunKept(mem0, mem1, mem, r, a0, done, p0, WithV(perm));
        return;
      }
      GrownWiden(mem1, owner1, mem, owner, r, a, a + 1, a0, a + 1);
      GrownWiden(mem0, owner0, mem1, owner1, r, a0, a, a0, a + 1);
      GrownTrans(mem0, owner0, mem1, owner1, mem, owner, r, a0, a + 1);
      PtesOutside(mem1, owner1, mem, owner, r, a, a + 1);
    }

    /** One turn of uvmunmap's loop; what is no leaf is not found there. */
    method UnmapPage(r: nat, v: nat, doFree: bool) returns (ok: bool)
      requires Valid() && IsRoot(owner, r) && Unmappable(mem, owner, r, v, v + 1, doFree)
      modifies this
      ensures ok <==> v < MAXVPN && Present(old(Pte(mem, r, v)))
      ensures ok ==> Valid() && IsRoot(owner, r) && Shrunk(old(mem), old(owner), mem, owner, r, v, v + 1)
    {
      hide Valid, Pte, Px0, TablePath, NodeAt, Shrunk, Grown, FreedLeaf, Unmappable, Present, Ppn;
      var w := Walk(r, v * PGSIZE, false);
      if !w.At? {
        NotPresent();
        return false;
      }
      PteHere(r, v);
      LeafEntry(Pte(mem, r, v));
      var pte := mem[w.page][w.index];
      if !Present(pte) || Flags(pte) == PTE_V {
        return false;
      }
      ok := true;
      if doFree {
        LeafUse(mem, owner, r, v);
        ok := FreeLeaf(r, v, Ppn(pte));
      } else {
        NothingToFree(r, v);
      }
      if !ok {
        return;
      }
      ghost var mem1, owner1, p := mem, owner, if doFree then Ppn(pte) else 0;
      StillThere(old(mem), old(owner), mem1, owner1, r, v, p);
      WritePte(r, v, w.page, 0);
      LeafGone(old(mem), old(owner), mem1, owner1, mem, r, v, p);
    }

    lemma {:induction false} NothingToFree(r: nat, v: nat)
      requires Valid() && Unmappable(mem, owner, r, v, v + 1, false)
      ensures FreedLeaf(mem, owner, mem, owner, r, v, 0)
    {
      hide TreesOk, FreedLeaf;
      NoLeafOwned(mem, owner, r, v);
    }

    /** kfree of the page behind an entry that still names it. */
    method FreeLeaf(r: nat, v: nat, p: nat) returns (ok: bool)
      requires Valid() && IsRoot(owner, r) && p in owner && owner[p] == Leaf(r, v) && v < NVPN
      modifies this
      ensures ok && Valid() && IsRoot(owner, r) && FreedLeaf(old(mem), old(owner), mem, owner, r, v, p)
    {
      LeafLoose(mem, owner, r, v, p);
      PartitionUse(first, limit, owner, free, p, Loose);
      Managed(first, limit, owner, free, p);
      hide Chain, Partition, TreesOk, Pte, NodeAt;
      ghost var owner0 := owner;
      owner := owner[p := Loose];
      ok := Kfree(p, NoHole);
      FreedLeafFacts(old(mem), owner0, mem, owner, r, v, p);
    }

    /** uvmunmap: fails unless every page of an aligned range is mapped; then removes exactly their translations. */
    method Uvmunmap(r: nat, va: nat, npages: nat, doFree: bool) returns (ok: bool)
      requires Valid() && IsRoot(owner, r) && Unmappable(mem, owner, r, va / PGSIZE, va / PGSIZE + npages, doFree)
      modifies this
      ensures ok <==> va % PGSIZE == 0 && AllMapped(old(mem), r, va / PGSIZE, va / PGSIZE + npages)
      ensures ok ==> Valid() && IsRoot(owner, r) && Shrunk(old(mem), old(owner), mem, owner, r, va / PGSIZE, va / PGSIZE + npages)
    {
      hide Valid, Pte, Shrunk, Unmappable;
      if va % PGSIZE != 0 {
        return false;
      }
      var lo := va / PGSIZE;
      var a := lo;
      ShrunkSelf(mem, owner, r, lo);
      while a < lo + npages
        invariant lo <= a <= lo + npages && Valid() && IsRoot(owner, r)
        invariant Shrunk(old(mem), old(owner), mem, owner, r, lo, a) && AllMapped(old(mem), r, lo, a)
      {
        StillUnmappable(old(mem), old(owner), mem, owner, r, lo, a, lo + npages, doFree);
        NarrowUnmappable(mem, owner, r, a, lo + npages, doFree);
        ghost var mem1, owner1 := mem, owner;
        var freed := UnmapPage(r, a, doFree);
        if !freed {
          return false;
        }
        ShrunkMore(old(mem), old(owner), mem1, owner1, mem, owner, r, lo, a);
        a := a + 1;
      }
      return true;
    }

    /** uvmdealloc: user memory shrinks from oldsz to newsz, rounded up to pages. */
    method Uvmdealloc(r: nat, oldsz: nat, newsz: nat) returns (ok: bool, sz: nat)
      requires Valid() && IsRoot(owner, r) && Owned(mem, owner, r, PagesUp(newsz), PagesUp(oldsz))
      modifies this
      ensures ok <==> AllMapped(old(mem), r, PagesUp(newsz), PagesUp(oldsz))
      ensures ok ==> Valid() && IsRoot(owner, r) && sz == if newsz < oldsz then newsz else oldsz
      ensures ok ==> Shrunk(old(mem), old(owner), mem, owner, r, PagesUp(newsz), if PagesUp(newsz) < PagesUp(oldsz) then PagesUp(oldsz) else PagesUp(newsz))
    {
      PagesUpMonotone(newsz, oldsz);
      ShrunkSelf(mem, owner, r, PagesUp(newsz));
      hide Valid, Pte, Shrunk, Owned;
      if newsz >= oldsz {
        PagesUpMonotone(oldsz, newsz);
        return true, oldsz;
      }
      ok := true;
      if PagesUp(newsz) < PagesUp(oldsz) {
        ok := Uvmunmap(r, PagesUp(newsz) * PGSIZE, PagesUp(oldsz) - PagesUp(newsz), true);
      }
      return ok, newsz;
    }

    /** uvmcreate: an empty tree under a fresh root; 0 when there is no page for it. */
    method Uvmcreate() returns (r: nat)
      requires Valid()
      modifies this
      ensures Valid() && (r == 0 <==> old(free) == [])
      ensures r == 0 ==> mem == old(mem) && owner == old(owner) && free == old(free)
      ensures r != 0 ==> free == old(free)[1..] && r !in old(owner) && owner == old(owner)[r := Table(r, Root)] && Kept(old(mem), old(owner), mem, owner)
      ensures r != 0 ==> (forall v :: 0 <= v < NVPN ==> Pte(mem, r, v) == 0) && PtesKept(old(owner), old(mem), mem, r, 0, NVPN)
    {
      hide Chain, Partition, TreesOk, Pte;
      r := Kalloc();
      if r == 0 {
        return;
      }
      SetPage(r, ZeroPage());
      OthersAfterFresh(old(mem), old(owner), mem, r);
      NewRoot(mem, owner, r);
      PartitionUse(first, limit, owner, free, r, Table(r, Root));
      owner := owner[r := Table(r, Root)];
    }

    /**
      kalloc, fill, mappages of one page, as uvmalloc and uvmcopy do it, and the kfree when
      mappages fails.
     */
    method AddPage(r: nat, v: nat, data: Page, perm: nat) returns (res: MapResult)
      requires Valid() && IsRoot(owner, r) && PermOk(perm)
      modifies this
      ensures res.Remap? ==> v >= MAXVPN || Present(old(Pte(mem, r, v)))
      ensures !res.Remap? ==> Valid() && IsRoot(owner, r)
      ensures res.Mapped? ==> v < MAXVPN && !Present(old(Pte(mem, r, v))) && Grown(old(mem), old(owner), mem, owner, r, v, v + 1)
      ensures res.Mapped? ==> UserPage(mem, owner, r, v, WithV(perm), data)
      ensures res.NoMemory? ==> Grown(old(mem), old(owner), mem, owner, r, 0, 0) && |free| <= 1
      ensures !res.Remap? ==> Spent(old(owner), |old(free)|, owner, |free|, r, v, res)
    {
      hide Valid, ValidExcept, TreesOk, Pte, Grown, Fresh, UserPage, WithV, PermOk, Freed, Tables, Spent;
      GrownSelf(mem, owner, r, 0, 0);
      Trees();
      var p := FreshPageOf(data);
      if p == 0 {
        NothingSpent(owner, r, v);
        return NoMemory;
      }
      ghost var mem1, owner1, free1 := mem, owner, free;
      FreshFacts(old(mem), old(owner), mem1, owner1, p, r);
      res := MapOne(r, v, p, perm);
      if res.Remap? {
        return;
      }
      ghost var mem2, owner2, free2 := mem, owner, free;
      if res.NoMemory? {
        LooseKept(mem1, owner1, mem, owner, r, v, v, p);
        Trees();
        var freed := GiveBack(p);
        GivenBack(old(mem), old(owner), mem1, owner1, mem2, owner2, mem, owner, r, p, v);
        PageSpent(old(owner), old(free), old(mem), mem1, owner1, free1, owner2, free2, owner, |free|, r, v, p, res);
        return;
      }
      LooseKept(mem1, owner1, mem, owner, r, v, v + 1, p);
      ValidFlags(perm);
      OwnLeaf(r, v, p, WithV(perm));
      PageAdded(old(mem), old(owner), mem1, owner1, mem, owner2, r, v, p);
      PageSpent(old(owner), old(free), old(mem), mem1, owner1, free1, owner2, free2, owner, |free|, r, v, p, res);
    }

    lemma {:induction false} Trees()
      requires Valid()
      ensures TreesOk(mem, owner, NoHole)
    {
    }

    method FreshPageOf(data: Page) returns (p: nat)
      requires Valid()
      modifies this
      ensures Valid() && (p == 0 <==> old(free) == [])
      ensures p == 0 ==> mem == old(mem) && owner == old(owner) && free == old(free)
      ensures p != 0 ==> Fresh(old(mem), old(owner), mem, owner, p) && mem[p] == data && free == old(free)[1..]
    {
      hide Valid;
      p := Kalloc();
      if p != 0 {
        SetPage(p, data);
      }
    }

    /** The kfree of a page the kernel holds. */
    method GiveBack(p: nat) returns (ok: bool)
      requires Valid() && p in owner && owner[p] == Loose && free == []
      modifies this
      ensures ok && Valid() && owner == old(owner) - {p} && |free| <= 1 && Freed(old(mem), mem, p)
    {
      Managed(first, limit, owner, free, p);
      hide Chain, Partition, TreesOk;
      ok := Kfree(p, NoHole);
    }

    /** mappages of one page. */
    method MapOne(r: nat, v: nat, p: nat, perm: nat) returns (res: MapResult)
      requires Valid() && IsRoot(owner, r) && PermOk(perm)
      modifies this
      ensures Valid() && IsRoot(owner, r)
      ensures res.Remap? ==> v >= MAXVPN || Present(old(Pte(mem, r, v)))
      ensures res.Mapped? ==> v < MAXVPN && !Present(old(Pte(mem, r, v))) && Grown(old(mem), old(owner), mem, owner, r, v, v + 1)
      ensures res.Mapped? ==> Pte(mem, r, v) == MakePte(p, WithV(perm))
      ensures res.NoMemory? ==> Grown(old(mem), old(owner), mem, owner, r, v, v) && free == []
      ensures v >= MAXVPN ==> res.Remap?
      ensures Tables(old(owner), old(free), owner, free, r, v, res)
    {
      hide Valid, Pte, Grown, MakePte, HasTable, NewTable;
      OnePage(v, p);
      var done;
      res, done := Mappages(r, v * PGSIZE, PGSIZE, p * PGSIZE, perm);
      assert p + (v - v) == p;
    }

    /** A mapped page becomes the user page it is mapped for. */
    ghost method OwnLeaf(r: nat, v: nat, p: nat, flags: nat)
      requires Valid() && IsRoot(owner, r) && p in owner && owner[p] == Loose && v < NVPN && flags < 1024 && flags % 2 == 1
      requires Pte(mem, r, v) == MakePte(p, flags)
      modifies this`owner
      ensures Valid() && owner == old(owner)[p := Leaf(r, v)] && IsRoot(owner, r)
      ensures p < |mem| && UserPage(mem, owner, r, v, flags, mem[p])
    {
      LeafOwned(mem, owner, r, v, p, flags);
      PartitionUse(first, limit, owner, free, p, Leaf(r, v));
      owner := owner[p := Leaf(r, v)];
    }

    /** One more page, seen from the start of uvmalloc or uvmcopy. */
    method Extend(ghost src: Source, r: nat, ghost lo: nat, v: nat, ghost hi: nat, data: Page, perm: nat,
                  ghost mem0: Memory, ghost owner0: map<nat, Use>, ghost n0: nat) returns (res: MapResult)
      requires Valid() && IsRoot(owner, r) && PermOk(perm) && IsRoot(owner0, r) && lo <= v < hi
      requires Budget(owner0, n0, owner, |free|, r, lo, v)
      requires Grown(mem0, owner0, mem, owner, r, lo, v) && NewPages(src, mem0, mem, owner, r, lo, v)
      requires v < NVPN ==> WithV(perm) == WantFlags(src, mem0, v) && data == WantData(src, mem0, v)
      modifies this
      ensures res.Remap? ==> Blocked(mem0, r, v)
      ensures !res.Remap? ==> Valid() && IsRoot(owner, r)
      ensures res.Mapped? ==> Grown(mem0, owner0, mem, owner, r, lo, v + 1) && NewPages(src, mem0, mem, owner, r, lo, v + 1)
      ensures res.NoMemory? ==> Grown(mem0, owner0, mem, owner, r, lo, v) && NewPages(src, mem0, mem, owner, r, lo, v)
      ensures res.Mapped? ==> Budget(owner0, n0, owner, |free|, r, lo, v + 1)
      ensures res.NoMemory? ==> (NewTable(owner0, owner) <==> SpendsTables(owner0, r, lo, hi, n0))
    {
      hide Valid, Pte, Grown, NewPages, WantFlags, WantData, UserPage, Budget, Spent, NewTable, SpendsTables, UsesKept;
      ghost var mem1, owner1 := mem, owner;
      PtesOutside(mem0, owner0, mem, owner, r, lo, v);
      GrownUses(mem0, owner0, mem, owner, r, lo, v);
      res := AddPage(r, v, data, perm);
      if res.Remap? {
        return;
      }
      GrownUses(mem1, owner1, mem, owner, r, if res.Mapped? then v else 0, if res.Mapped? then v + 1 else 0);
      BudgetStep(owner0, n0, owner1, |old(free)|, owner, |free|, r, lo, v, hi, res);
      if res.NoMemory? {
        GrownWiden(mem1, owner1, mem, owner, r, 0, 0, lo, v);
        GrownTrans(mem0, owner0, mem1, owner1, mem, owner, r, lo, v);
        NewPagesKept(src, mem0, mem1, owner1, mem, owner, r, lo, v, 0, 0);
        return;
      }
      GrownWiden(mem1, owner1, mem, owner, r, v, v + 1, lo, v + 1);
      GrownWiden(mem0, owner0, mem1, owner1, r, lo, v, lo, v + 1);
      GrownTrans(mem0, owner0, mem1, owner1, mem, owner, r, lo, v + 1);
      NewPagesKept(src, mem0, mem1, owner1, mem, owner, r, lo, v, v, v + 1);
      NewPagesMore(src, mem0, mem, owner, r, lo, v);
    }

    /** Taking the new pages away again. */
    method Rollback(ghost src: Source, r: nat, lo: nat, a: nat, ghost mem0: Memory, ghost owner0: map<nat, Use>) returns (ok: bool)
      requires Valid() && IsRoot(owner, r) && IsRoot(owner0, r) && lo <= a && TreesOk(mem0, owner0, NoHole)
      requires Grown(mem0, owner0, mem, owner, r, lo, a) && NewPages(src, mem0, mem, owner, r, lo, a)
      modifies this
      ensures ok && Valid() && IsRoot(owner, r) && Grown(mem0, owner0, mem, owner, r, 0, 0)
      ensures owner == owner0 <==> !NewTable(owner0, old(owner))
    {
      hide Valid, Pte, Grown, NewPages, Shrunk, Owned, AllMapped, TreesOk, NewTable;
      NewPagesOwned(src, mem0, mem, owner, r, lo, a);
      ghost var mem1, owner1 := mem, owner;
      OnePage(lo, a);
      ok := Uvmunmap(r, lo * PGSIZE, a - lo, true);
      Undone(src, mem0, owner0, mem1, owner1, mem, owner, r, lo, a);
      TablesStay(mem0, owner0, mem1, owner1, mem, owner, r, lo, a);
      GrownUses(mem0, owner0, mem, owner, r, 0, 0);
    }

    /**
      uvmalloc: zeroed pages, in use for it alone, from the old size to the new. On failure the
      map and every page in use are as before, but for tables that were made on the way: some
      were exactly if a page without a lowest-level table was reached with two free pages left.
     */
    method Uvmalloc(r: nat, oldsz: nat, newsz: nat, xperm: nat) returns (res: MapResult, sz: nat)
      requires Valid() && IsRoot(owner, r) && xperm in {0, 4, 8, 12}
      modifies this
      ensures newsz < oldsz ==> res.Mapped? && sz == oldsz && mem == old(mem) && owner == old(owner) && free == old(free)
      ensures res.Mapped? && newsz >= oldsz ==>
        && sz == newsz && Valid() && IsRoot(owner, r) && Grown(old(mem), old(owner), mem, owner, r, PagesUp(oldsz), PagesUp(newsz))
        && NewPages(Zeroed(PTE_V + PTE_R + PTE_U + xperm), old(mem), mem, owner, r, PagesUp(oldsz), PagesUp(newsz))
      ensures res.Mapped? && newsz >= oldsz ==> ZeroPages(mem, r, PagesUp(oldsz), PagesUp(newsz), xperm)
      ensures res.NoMemory? ==> sz == 0 && Valid() && IsRoot(owner, r) && Grown(old(mem), old(owner), mem, owner, r, 0, 0)
      ensures res.NoMemory? ==> (owner == old(owner) <==> !Spends(old(mem), r, PagesUp(oldsz), PagesUp(newsz), |old(free)|))
      ensures res.Remap? ==> exists v :: PagesUp(oldsz) <= v < PagesUp(newsz) && Blocked(old(mem), r, v)
    {
      hide Valid, Pte, Grown, NewPages, TreesOk, Blocked, Budget, NewTable, Spends, SpendsTables, ZeroPages;
      if newsz < oldsz {
        return Mapped, oldsz;
      }
      PagesUpMonotone(oldsz, newsz);
      PermsOk(xperm);
      var lo, a := PagesUp(oldsz), PagesUp(oldsz);
      ghost var src := Zeroed(PTE_V + PTE_R + PTE_U + xperm);
      ghost var mem0, owner0, n0 := mem, owner, |free|;
      NoPagesYet(src, r, lo, n0);
      SpendsIff(mem0, owner0, r, lo, PagesUp(newsz), n0);
      while a * PGSIZE < newsz
        invariant lo <= a <= PagesUp(newsz) && Valid() && IsRoot(owner, r)
        invariant Grown(mem0, owner0, mem, owner, r, lo, a) && NewPages(src, mem0, mem, owner, r, lo, a)
        invariant Budget(owner0, n0, owner, |free|, r, lo, a)
        decreases PagesUp(newsz) - a
      {
        BelowPagesUp(a, newsz);
        res := Extend(src, r, lo, a, PagesUp(newsz), ZeroPage(), PTE_R + PTE_U + xperm, mem0, owner0, n0);
        if res.Remap? {
          return Remap, 0;
        }
        if res.NoMemory? {
          var ok := Rollback(src, r, lo, a, mem0, owner0);
          return NoMemory, 0;
        }
        a := a + 1;
      }
      BelowPagesUp(a, newsz);
      ZeroedIsZero(mem0, mem, owner, r, lo, a, xperm);
      return Mapped, newsz;
    }

    /**
      uvmcopy: every page of the old tree gets a page of its own in the new one, with equal
      flags and contents. On failure the new tree maps what it mapped before, and has new tables
      exactly if a page without a lowest-level table was reached with two free pages left.
     */
    method Uvmcopy(r0: nat, r: nat, sz: nat) returns (res: MapResult)
      requires Valid() && IsRoot(owner, r) && IsRoot(owner, r0) && r != r0 && Owned(mem, owner, r0, 0, PagesUp(sz))
      modifies this
      ensures res.Mapped? ==>
        && Valid() && IsRoot(owner, r) && Grown(old(mem), old(owner), mem, owner, r, 0, PagesUp(sz))
        && NewPages(CopyOf(r0), old(mem), mem, owner, r, 0, PagesUp(sz)) && AllMapped(old(mem), r0, 0, PagesUp(sz))
      ensures res.NoMemory? ==> Valid() && IsRoot(owner, r) && Grown(old(mem), old(owner), mem, owner, r, 0, 0)
      ensures res.NoMemory? ==> (owner == old(owner) <==> !Spends(old(mem), r, 0, PagesUp(sz), |old(free)|))
      ensures res.Remap? ==>
        exists v :: 0 <= v < PagesUp(sz) && (Blocked(old(mem), r, v) || !Present(old(Pte(mem, r0, v))))
    {
      hide Valid, Pte, Grown, NewPages, TreesOk, Owned, Blocked, Budget, NewTable, Spends, SpendsTables;
      var i := 0;
      ghost var mem0, owner0, n0 := mem, owner, |free|;
      NoPagesYet(CopyOf(r0), r, 0, n0);
      SpendsIff(mem0, owner0, r, 0, PagesUp(sz), n0);
      while i * PGSIZE < sz
        invariant 0 <= i <= PagesUp(sz) && Valid() && IsRoot(owner, r) && IsRoot(owner, r0)
        invariant Grown(mem0, owner0, mem, owner, r, 0, i) && NewPages(CopyOf(r0), mem0, mem, owner, r, 0, i) && AllMapped(mem0, r0, 0, i)
        invariant Budget(owner0, n0, owner, |free|, r, 0, i)
        decreases PagesUp(sz) - i
      {
        BelowPagesUp(i, sz);
        res := CopyPage(r0, r, i, PagesUp(sz), mem0, owner0, n0);
        if res.Remap? {
          return;
        }
        if res.NoMemory? {
          var ok := Rollback(CopyOf(r0), r, 0, i, mem0, owner0);
          return;
        }
        i := i + 1;
      }
      BelowPagesUp(i, sz);
      return Mapped;
    }

    lemma {:induction false} NoPagesYet(src: Source, r: nat, lo: nat, n0: nat)
      requires Valid() && n0 == |free|
      ensures Budget(owner, n0, owner, |free|, r, lo, lo)
      ensures Grown(mem, owner, mem, owner, r, lo, lo) && NewPages(src, mem, mem, owner, r, lo, lo) && TreesOk(mem, owner, NoHole)
    {
    }

    /** One turn of uvmcopy's loop. */
    method CopyPage(r0: nat, r: nat, v: nat, ghost n: nat, ghost mem0: Memory, ghost owner0: map<nat, Use>, ghost n0: nat) returns (res: MapResult)
      requires Valid() && IsRoot(owner, r) && IsRoot(owner, r0) && r != r0 && v < n
      requires TreesOk(mem0, owner0, NoHole) && IsRoot(owner0, r) && IsRoot(owner0, r0) && Owned(mem0, owner0, r0, 0, n)
      requires Grown(mem0, owner0, mem, owner, r, 0, v) && NewPages(CopyOf(r0), mem0, mem, owner, r, 0, v)
      requires Budget(owner0, n0, owner, |free|, r, 0, v)
      modifies this
      ensures res.Remap? ==> Blocked(mem0, r, v) || !Present(Pte(mem0, r0, v))
      ensures !res.Remap? ==> Valid() && IsRoot(owner, r) && IsRoot(owner, r0) && Present(Pte(mem0, r0, v))
      ensures res.Mapped? ==> v < MAXVPN && Grown(mem0, owner0, mem, owner, r, 0, v + 1) && NewPages(CopyOf(r0), mem0, mem, owner, r, 0, v + 1)
      ensures res.NoMemory? ==> Grown(mem0, owner0, mem, owner, r, 0, v) && NewPages(CopyOf(r0), mem0, mem, owner, r, 0, v)
      ensures res.Mapped? ==> Budget(owner0, n0, owner, |free|, r, 0, v + 1)
      ensures res.NoMemory? ==> (NewTable(owner0, owner) <==> SpendsTables(owner0, r, 0, n, n0))
    {
      hide Valid, Pte, Grown, NewPages, TreesOk, Owned, NodeAt, Px0, TablePath, Present, Ppn, WithV, PermOk, WantFlags, WantData;
      hide Budget, NewTable, SpendsTables, Had;
      var w := Walk(r0, v * PGSIZE, false);
      OldPte(mem0, owner0, mem, owner, r, r0, 0, v, v);
      if !w.At? {
        NotPresent();
        return Remap;
      }
      PteHere(r0, v);
      var pte := mem[w.page][w.index];
      if !Present(pte) {
        return Remap;
      }
      OldPage(mem0, owner0, mem, owner, r, r0, v, n);
      FlagsOk(pte);
      res := Extend(CopyOf(r0), r, 0, v, n, mem[Ppn(pte)], Flags(pte), mem0, owner0, n0);
      if !res.Remap? {
        GrownRoot(mem0, owner0, mem, owner, r0, 0, if res.Mapped? then v + 1 else v, r);
      }
    }

    /** freewalk's treatment of entry i: the tree below it goes, then the entry. */
    method FreeChild(ghost r: nat, ghost top: Path, n: nat, i: nat) returns (ok: bool)
      requires Valid() && IsRoot(owner, r) && Depth(top) <= 2 && n == NodeAt(mem, r, top) != 0 && i < NPTE
      modifies this
      ensures !ok ==> !NoLeaves(old(mem), r, top)
      ensures ok ==> Valid() && IsRoot(owner, r) && NodeAt(mem, r, top) == n && (NoLeaves(mem, r, top) <==> NoLeaves(old(mem), r, top))
      ensures ok ==> TablesGone(old(owner), owner, r, Step(top, i)) && SamePages(old(mem), mem, owner, n)
      ensures ok ==> 0 < n < |mem| && !Present(mem[n][i]) && forall j :: 0 <= j < NPTE && j != i ==> mem[n][j] == old(mem)[n][j]
      decreases 2 - Depth(top), 0
    {
      ChildEntry(mem, owner, r, top, i);
      hide TreesOk, NodeAt, Present, HasRwx, Ppn, Chain, Partition, NoLeaves, TablesGone, SamePages, Below;
      var pte := mem[n][i];
      ok := true;
      if Present(pte) && !HasRwx(pte) {
        ghost var mem0, owner0 := mem, owner;
        ok := Freewalk(Ppn(pte), r, Step(top, i));
        if !ok {
          return;
        }
        SubtreeFreed(mem0, owner0, mem, owner, r, top, i);
        ghost var mem1 := mem;
        mem := SetEntry(mem, n, i, 0);
        Detach(mem1, owner, r, top, i);
        Detached(mem0, owner0, mem1, mem, owner, r, top, i);
        KeepList(mem1, mem, freelist, first, limit, owner, free, n);
      } else if Present(pte) {
        ok := false;
      } else {
        NoChild(mem, owner, r, top, i);
      }
    }

    /** freewalk: fails on meeting a leaf; otherwise frees every table of the tree at top. */
    method Freewalk(n: nat, ghost r: nat, ghost top: Path) returns (ok: bool)
      requires Valid() && IsRoot(owner, r) && Depth(top) <= 2 && n == NodeAt(mem, r, top) != 0
      modifies this
      ensures ok <==> NoLeaves(old(mem), r, top)
      ensures ok ==> ValidExcept(Hole(r, top)) && TablesGone(old(owner), owner, r, top) && SamePages(old(mem), mem, owner, n)
      decreases 2 - Depth(top), 1
    {
      hide Valid, NodeAt, Present, NoLeaves, TablesGone, SamePages, TablesGoneBefore;
      ghost var mem0, owner0 := mem, owner;
      FreewalkStart(r, top);
      ok := true;
      var i := 0;
      while i < NPTE
        invariant 0 <= i <= NPTE && ok && Valid() && IsRoot(owner, r) && NodeAt(mem, r, top) == n
        invariant NoLeaves(mem, r, top) <==> NoLeaves(mem0, r, top)
        invariant 0 < n < |mem| && forall j :: 0 <= j < i ==> !Present(mem[n][j])
        invariant TablesGoneBefore(owner0, owner, r, top, i) && SamePages(mem0, mem, owner, n)
      {
        ghost var mem1, owner1 := mem, owner;
        ok := FreeChild(r, top, n, i);
        if !ok {
          return;
        }
        GoneMore(mem0, owner0, mem1, owner1, mem, owner, r, top, i, n);
        i := i + 1;
      }
      NothingLeft(mem, r, top);
      ok := FreeEmpty(n, r, top, mem0, owner0);
    }

    lemma {:induction false} FreewalkStart(r: nat, top: Path)
      requires Valid() && IsRoot(owner, r) && Depth(top) <= 2 && NodeAt(mem, r, top) != 0
      ensures 0 < NodeAt(mem, r, top) < |mem| && TablesGoneBefore(owner, owner, r, top, 0) && SamePages(mem, mem, owner, 0)
      ensures SamePages(mem, mem, owner, NodeAt(mem, r, top)) && TreesOk(mem, owner, NoHole)
    {
      TheTable(mem, owner, NoHole, r, top);
      NoneBefore(top);
    }

    /** The last step of freewalk: kfree of the table, now without entries. */
    method FreeEmpty(n: nat, ghost r: nat, ghost top: Path, ghost mem0: Memory, ghost owner0: map<nat, Use>) returns (ok: bool)
      requires Valid() && IsRoot(owner, r) && Depth(top) <= 2 && n == NodeAt(mem, r, top) != 0 && n < |mem|
      requires forall j :: 0 <= j < NPTE ==> !Present(mem[n][j])
      requires TreesOk(mem0, owner0, NoHole) && IsRoot(owner0, r) && NodeAt(mem0, r, top) == n
      requires TablesGoneBefore(owner0, owner, r, top, NPTE) && SamePages(mem0, mem, owner, n)
      modifies this
      ensures ok && ValidExcept(Hole(r, top)) && TablesGone(owner0, owner, r, top) && SamePages(mem0, mem, owner, n)
    {
      hide NodeAt, NoLeaves, TablesGone, TablesGoneBefore, TreesOk, Chain, Partition;
      EmptyTable(mem, r, top);
      FreeTable(mem, owner, r, top);
      Managed(first, limit, owner, free, n);
      PartitionUse(first, limit, owner, free, n, Loose);
      AllGone(mem0, owner0, owner, r, top, n);
      owner := owner[n := Loose];
      assert ValidExcept(Hole(r, top));
      ok := Kfree(n, Hole(r, top));
      assert owner == old(owner) - {n};
    }

    /** uvmfree: succeeds if exactly the user memory is mapped, and then every page of the tree is free. */
    method Uvmfree(r: nat, sz: nat) returns (ok: bool)
      requires Valid() && IsRoot(owner, r) && Owned(mem, owner, r, 0, PagesUp(sz))
      modifies this
      ensures ok <==> AllMapped(old(mem), r, 0, PagesUp(sz)) && NoneMapped(old(mem), r, PagesUp(sz))
      ensures ok ==> Valid() && TreeGone(old(owner), owner, r)
      ensures ok ==> forall p :: p in owner && !owner[p].Table? && p < |mem| && p < old(|mem|) ==> mem[p] == old(mem[p])
      ensures ok ==> forall r', v :: IsRoot(old(owner), r') && r' != r && 0 <= v < NVPN ==> Pte(mem, r', v) == old(Pte(mem, r', v))
    {
      hide Valid, Pte, Shrunk, NoLeaves, TablesGone, SamePages, Owned, TreeGone, NodeAt, NoneMapped;
      ghost var mem0, owner0 := mem, owner;
      ShrunkSelf(mem, owner, r, 0);
      PagesUpMonotone(0, sz);
      ok := true;
      if sz > 0 {
        ok := Uvmunmap(r, 0, PagesUp(sz), true);
        if !ok {
          return;
        }
      } else {
        NoPages();
      }
      AllUnmapped(r, mem0, owner0, PagesUp(sz));
      ghost var mem1, owner1 := mem, owner;
      ok := Freewalk(r, r, Root);
      if !ok {
        return;
      }
      RootGone(r, mem0, owner0, mem1, owner1, PagesUp(sz));
    }

    lemma {:induction false} AllUnmapped(r: nat, mem0: Memory, owner0: map<nat, Use>, n: nat)
      requires Valid() && IsRoot(owner, r) && IsRoot(owner0, r) && Shrunk(mem0, owner0, mem, owner, r, 0, n)
      ensures NoLeaves(mem, r, Root) <==> NoneMapped(mem0, r, n)
      ensures NodeAt(mem, r, Root) == r != 0 && TreesOk(mem, owner, NoHole)
      ensures NoneMapped(mem0, r, n) ==> forall p :: p in owner ==> !(owner[p].Leaf? && owner[p].root == r)
    {
      RootHere(mem, owner, r);
      NoLeavesFromPtes(mem, r);
      NotPresent();
      hide Pte, NoLeaves, NodeAt;
      assert NoneMapped(mem0, r, n) <==> NoneMapped(mem, r, 0);
    }

    lemma {:induction false} RootGone(r: nat, mem0: Memory, owner0: map<nat, Use>, mem1: Memory, owner1: map<nat, Use>, n: nat)
      requires ValidExcept(Hole(r, Root)) && IsRoot(owner0, r) && Shrunk(mem0, owner0, mem1, owner1, r, 0, n) && TreesOk(mem1, owner1, NoHole)
      requires TablesGone(owner1, owner, r, Root) && SamePages(mem1, mem, owner, r)
      requires forall p :: p in owner1 ==> !(owner1[p].Leaf? && owner1[p].root == r)
      ensures Valid() && TreeGone(owner0, owner, r) && |mem| == |mem0|
      ensures forall p :: p in owner && !owner[p].Table? && p < |mem0| ==> mem[p] == mem0[p]
      ensures forall r', v :: IsRoot(owner0, r') && r' != r && 0 <= v < NVPN ==> Pte(mem, r', v) == Pte(mem0, r', v)
    {
      hide Chain, Partition;
      RootClosed(r, mem0, owner0, mem1, owner1, mem, owner, n);
    }
  }

  /** Virtual page v of root r is a page in use for it, with these flags and contents. */
  ghost predicate UserPage(mem: Memory, owner: map<nat, Use>, r: nat, v: nat, flags: nat, data: Page)
  {
    var w := Pte(mem, r, v);
    Present(w) && Flags(w) == flags && Ppn(w) in owner && owner[Ppn(w)] == Leaf(r, v) && 0 < Ppn(w) < |mem| && mem[Ppn(w)] == data
  }

  // ---------------------------------------------------------------- freeing a tree

  ghost predicate NoLeaves(mem: Memory, r: nat, top: Path)
  {
    forall q, j :: Depth(q) == 2 && Below(q, top) ==> !Present(Word(mem, r, q, j))
  }

  /** q lies below one of the first i entries of the table at top. */
  predicate Before(q: Path, top: Path, i: nat)
  {
    q.Step? && ((q.up == top && q.i < i) || Before(q.up, top, i))
  }

  /** Exactly the tables of r at and below top are out of use. */
  ghost predicate TablesGone(owner0: map<nat, Use>, owner: map<nat, Use>, r: nat, top: Path)
  {
    && (forall p :: p in owner <==> p in owner0 && !(owner0[p].Table? && owner0[p].root == r && Below(owner0[p].path, top)))
    && (forall p :: p in owner ==> p in owner0 && owner[p] == owner0[p])
  }

  ghost predicate TablesGoneBefore(owner0: map<nat, Use>, owner: map<nat, Use>, r: nat, top: Path, i: nat)
  {
    && (forall p :: p in owner <==> p in owner0 && !(owner0[p].Table? && owner0[p].root == r && Before(owner0[p].path, top, i)))
    && (forall p :: p in owner ==> p in owner0 && owner[p] == owner0[p])
  }

  /** Every table and every user page of r is out of use, and nothing else is. */
  ghost predicate TreeGone(owner0: map<nat, Use>, owner: map<nat, Use>, r: nat)
  {
    && (forall p :: p in owner <==> p in owner0 && (owner0[p].Loose? || owner0[p].root != r))
    && (forall p :: p in owner ==> p in owner0 && owner[p] == owner0[p])
  }

  /** The pages in use other than n are as they were. */
  ghost predicate SamePages(mem0: Memory, mem: Memory, owner: map<nat, Use>, n: nat)
  {
    |mem| == |mem0| && forall p :: p in owner && p != n && p < |mem| ==> mem[p] == mem0[p]
  }

  lemma {:induction false} NoneBefore(top: Path)
    ensures forall q :: !Before(q, top, 0)
  {
    forall q
      ensures !Before(q, top, 0)
    {
      NoneBeforeAt(q, top);
    }
  }

  lemma {:induction false} NoneBeforeAt(q: Path, top: Path)
    ensures !Before(q, top, 0)
    decreases q
  {
    if q.Step? {
      NoneBeforeAt(q.up, top);
    }
  }

  lemma {:induction false} BeforeNext(q: Path, top: Path, i: nat)
    ensures Before(q, top, i + 1) <==> Before(q, top, i) || Below(q, Step(top, i))
    decreases q
  {
    if q.Step? {
      BeforeNext(q.up, top, i);
    }
  }

  lemma {:induction false} BeforeEnd(mem: Memory, r: nat, q: Path, top: Path)
    requires NodeAt(mem, r, q) != 0
    ensures Below(q, top) <==> q == top || Before(q, top, NPTE)
    decreases q
  {
    if q.Step? {
      assert NodeAt(mem, r, q.up) != 0 && q.i < NPTE;
      BeforeEnd(mem, r, q.up, top);
    }
  }

  /** What freewalk finds in a table: a leaf at the lowest level, or the table below. */
  lemma {:induction false} ChildEntry(mem: Memory, owner: map<nat, Use>, r: nat, top: Path, i: nat)
    requires TreesOk(mem, owner, NoHole) && IsRoot(owner, r) && Depth(top) <= 2 && i < NPTE && NodeAt(mem, r, top) != 0
    ensures 0 < NodeAt(mem, r, top) < |mem| && NodeAt(mem, r, top) in owner && owner[NodeAt(mem, r, top)] == Table(r, top)
    ensures
      var w := mem[NodeAt(mem, r, top)][i];
      && (Present(w) && HasRwx(w) ==> !NoLeaves(mem, r, top))
      && (Present(w) && !HasRwx(w) ==> Depth(top) < 2 && NodeAt(mem, r, Step(top, i)) == Ppn(w) != 0 && (NoLeaves(mem, r, top) ==> NoLeaves(mem, r, Step(top, i))))
  {
    TheTable(mem, owner, NoHole, r, top);
    EntryHere(mem, owner, r, top, i);
    var w := mem[NodeAt(mem, r, top)][i];
    assert w == Word(mem, r, top, i);
    if Present(w) && !HasRwx(w) && NoLeaves(mem, r, top) {
      forall q, j | Depth(q) == 2 && Below(q, Step(top, i))
        ensures !Present(Word(mem, r, q, j))
      {
        BelowStep(q, top, i);
      }
    }
  }

  lemma {:induction false} BelowStep(q: Path, top: Path, i: nat)
    requires Below(q, Step(top, i))
    ensures Below(q, top)
    decreases q
  {
    if q != Step(top, i) {
      BelowStep(q.up, top, i);
    } else {
      assert Below(top, top);
    }
  }

  /** Freeing below one entry leaves every table outside it in place. */
  lemma {:induction false} SubtreeFreed(mem0: Memory, owner0: map<nat, Use>, mem: Memory, owner: map<nat, Use>, r: nat, top: Path, i: nat)
    requires TreesOk(mem0, owner0, NoHole) && IsRoot(owner0, r) && Depth(top) < 2 && i < NPTE && NodeAt(mem0, r, top) != 0
    requires TablesGone(owner0, owner, r, Step(top, i)) && SamePages(mem0, mem, owner, NodeAt(mem0, r, Step(top, i))) && NodeAt(mem0, r, Step(top, i)) != 0
    ensures IsRoot(owner, r) && NodeAt(mem, r, top) == NodeAt(mem0, r, top) && |mem| == |mem0|
    ensures 0 < NodeAt(mem0, r, top) < |mem0| && NodeAt(mem0, r, top) in owner
    ensures mem[NodeAt(mem0, r, top)] == mem0[NodeAt(mem0, r, top)]
    ensures forall q, j :: Depth(q) <= 2 && !Below(q, Step(top, i)) ==> Word(mem, r, q, j) == Word(mem0, r, q, j)
  {
    var h := Hole(r, Step(top, i));
    TheTable(mem0, owner0, NoHole, r, top);
    TheTable(mem0, owner0, NoHole, r, Step(top, i));
    NotBelow(top, i);
    assert Below(Step(top, i), Step(top, i));
    assert Recorded(mem0, owner, h) by {
      hide NodeAt;
      forall r', q | IsRoot(owner, r') && Depth(q) <= 2 && !Out(h, r', q) && NodeAt(mem0, r', q) != 0
        ensures NodeAt(mem0, r', q) in owner && owner[NodeAt(mem0, r', q)] == Table(r', q)
      {
        assert IsRoot(owner0, r');
      }
    }
    assert SameTables(mem0, mem, owner);
    NodeFrame(mem0, mem, owner, h, r, top);
    forall q, j | Depth(q) <= 2 && !Below(q, Step(top, i))
      ensures Word(mem, r, q, j) == Word(mem0, r, q, j)
    {
      NodeFrame(mem0, mem, owner, h, r, q);
    }
  }

  lemma {:induction false} Detached(mem0: Memory, owner0: map<nat, Use>, mem1: Memory, mem: Memory, owner: map<nat, Use>, r: nat, top: Path, i: nat)
    requires NoLeaves(mem0, r, Step(top, i)) && SamePages(mem0, mem1, owner, NodeAt(mem0, r, Step(top, i))) && Depth(top) < 2 && i < NPTE
    requires 0 < NodeAt(mem1, r, top) < |mem1| && mem == SetEntry(mem1, NodeAt(mem1, r, top), i, 0)
    requires TablesGone(owner0, owner, r, Step(top, i)) && NodeAt(mem0, r, Step(top, i)) !in owner
    requires mem1[NodeAt(mem1, r, top)] == mem0[NodeAt(mem1, r, top)]
    requires forall q, j :: Depth(q) <= 2 && !Below(q, Step(top, i)) ==> Word(mem1, r, q, j) == Word(mem0, r, q, j)
    requires forall q, j :: Depth(q) <= 2 && Present(Word(mem, r, q, j)) ==> !Below(q, Step(top, i)) && Word(mem, r, q, j) == Word(mem1, r, q, j)
    requires forall q, j :: Depth(q) == 2 && !Below(q, Step(top, i)) ==> Word(mem, r, q, j) == Word(mem1, r, q, j)
    ensures (NoLeaves(mem, r, top) <==> NoLeaves(mem0, r, top)) && SamePages(mem0, mem, owner, NodeAt(mem1, r, top)) && !Present(mem[NodeAt(mem1, r, top)][i])
    ensures forall j :: 0 <= j < NPTE && j != i ==> mem[NodeAt(mem1, r, top)][j] == mem0[NodeAt(mem1, r, top)][j]
  {
    hide NodeAt;
    assert NoLeaves(mem, r, top) <==> NoLeaves(mem0, r, top) by {
      hide Word;
    }
  }

  /** No table hangs below an entry that is not valid. */
  lemma {:induction false} NoChild(mem: Memory, owner: map<nat, Use>, r: nat, top: Path, i: nat)
    requires TreesOk(mem, owner, NoHole) && NodeAt(mem, r, top) != 0 && NodeAt(mem, r, top) < |mem| && i < NPTE && !Present(mem[NodeAt(mem, r, top)][i])
    ensures TablesGone(owner, owner, r, Step(top, i)) && SamePages(mem, mem, owner, NodeAt(mem, r, top))
  {
    assert NodeAt(mem, r, Step(top, i)) == 0;
    forall p | p in owner && owner[p].Table? && owner[p].root == r && Below(owner[p].path, Step(top, i))
      ensures false
    {
      NothingUnder(mem, r, Step(top, i), owner[p].path);
    }
  }

  lemma {:induction false} NothingUnder(mem: Memory, r: nat, top: Path, q: Path)
    requires NodeAt(mem, r, top) == 0 && Below(q, top)
    ensures NodeAt(mem, r, q) == 0
    decreases q
  {
    if q != top {
      NothingUnder(mem, r, top, q.up);
    }
  }

  lemma {:induction false} GoneMore(mem0: Memory, owner0: map<nat, Use>, mem1: Memory, owner1: map<nat, Use>, mem: Memory, owner: map<nat, Use>,
                                    r: nat, top: Path, i: nat, n: nat)
    requires TablesGoneBefore(owner0, owner1, r, top, i) && TablesGone(owner1, owner, r, Step(top, i))
    requires SamePages(mem0, mem1, owner1, n) && SamePages(mem1, mem, owner, n)
    ensures TablesGoneBefore(owner0, owner, r, top, i + 1) && SamePages(mem0, mem, owner, n)
  {
    forall q
      ensures Before(q, top, i + 1) <==> Before(q, top, i) || Below(q, Step(top, i))
    {
      BeforeNext(q, top, i);
    }
    hide Before, Below;
  }

  /** A table without valid entries has no leaf at it or below. */
  lemma {:induction false} NothingLeft(mem: Memory, r: nat, top: Path)
    requires 0 < NodeAt(mem, r, top) < |mem| && forall j :: 0 <= j < NPTE ==> !Present(mem[NodeAt(mem, r, top)][j])
    ensures NoLeaves(mem, r, top)
  {
    EmptyTable(mem, r, top);
    forall q, j | Depth(q) == 2 && Below(q, top)
      ensures !Present(Word(mem, r, q, j))
    {
      if q != top {
        NothingBelow(mem, r, top, q);
      }
    }
  }

  lemma {:induction false} EmptyTable(mem: Memory, r: nat, top: Path)
    requires 0 < NodeAt(mem, r, top) < |mem| && forall j :: 0 <= j < NPTE ==> !Present(mem[NodeAt(mem, r, top)][j])
    ensures forall i :: !Present(Word(mem, r, top, i))
  {
    hide NodeAt;
  }

  lemma {:induction false} AllGone(mem0: Memory, owner0: map<nat, Use>, owner: map<nat, Use>, r: nat, top: Path, n: nat)
    requires TreesOk(mem0, owner0, NoHole) && IsRoot(owner0, r) && n == NodeAt(mem0, r, top) != 0 && Depth(top) <= 2
    requires TablesGoneBefore(owner0, owner, r, top, NPTE) && n in owner
    ensures TablesGone(owner0, owner - {n}, r, top)
  {
    TheTable(mem0, owner0, NoHole, r, top);
    forall p | p in owner0 && owner0[p].Table? && owner0[p].root == r
      ensures Below(owner0[p].path, top) <==> p == n || Before(owner0[p].path, top, NPTE)
    {
      BeforeEnd(mem0, r, owner0[p].path, top);
    }
    hide TreesOk, Before, Below, NodeAt;
  }

  /** No page from n on is mapped. */
  ghost predicate NoneMapped(mem: Memory, r: nat, n: nat)
  {
    forall v :: n <= v < NVPN ==> !Present(Pte(mem, r, v))
  }

  lemma {:induction false} NoLeavesFromPtes(mem: Memory, r: nat)
    ensures NoLeaves(mem, r, Root) <==> NoneMapped(mem, r, 0)
  {
    if NoLeaves(mem, r, Root) {
      forall v | 0 <= v < NVPN
        ensures !Present(Pte(mem, r, v))
      {
        BelowRoot(TablePath(v));
      }
      return;
    }
    if !NoneMapped(mem, r, 0) {
      return;
    }
    forall q, j: nat | Depth(q) == 2 && Below(q, Root)
      ensures !Present(Word(mem, r, q, j))
    {
      assert q.Step? && Depth(q.up) == 1 && q.up.Step? && Depth(q.up.up) == 0;
      if q.up.i < NPTE && q.i < NPTE && j < NPTE {
        var v := SlotVpn(q.up.i, q.i, j);
        assert !Present(Pte(mem, r, v));
      } else {
        OutOfRange(mem, r, q, j);
      }
    }
  }

  lemma {:induction false} OutOfRange(mem: Memory, r: nat, q: Path, j: nat)
    requires q.Step? && q.up.Step? && (q.up.i >= NPTE || q.i >= NPTE || j >= NPTE)
    ensures Word(mem, r, q, j) == 0
  {
    if q.up.i >= NPTE {
      assert NodeAt(mem, r, q.up) == 0;
    }
    if q.up.i >= NPTE || q.i >= NPTE {
      assert NodeAt(mem, r, q) == 0;
    }
  }

  lemma {:induction false} NoPages()
    ensures PagesUp(0) == 0
  {
  }

  /** With the root gone, the rest is whole trees again. */
  lemma {:induction false} RootClosed(r: nat, mem0: Memory, owner0: map<nat, Use>, mem1: Memory, owner1: map<nat, Use>, mem: Memory, owner: map<nat, Use>, n: nat)
    requires TreesOk(mem, owner, Hole(r, Root)) && IsRoot(owner0, r) && Shrunk(mem0, owner0, mem1, owner1, r, 0, n) && TreesOk(mem1, owner1, NoHole)
    requires TablesGone(owner1, owner, r, Root) && SamePages(mem1, mem, owner, r)
    requires forall p :: p in owner1 ==> !(owner1[p].Leaf? && owner1[p].root == r)
    ensures TreesOk(mem, owner, NoHole) && TreeGone(owner0, owner, r) && |mem| == |mem0|
    ensures forall p :: p in owner && !owner[p].Table? && p < |mem0| ==> mem[p] == mem0[p]
    ensures forall r', v :: IsRoot(owner0, r') && r' != r && 0 <= v < NVPN ==> Pte(mem, r', v) == Pte(mem0, r', v)
  {
    forall q
      ensures Below(q, Root)
    {
      BelowRoot(q);
    }
    assert r !in owner;
    hide Below, NodeAt;
    assert TreesOk(mem, owner, NoHole) by {
      hide Shrunk, SamePages, TablesGone, Pte;
    }
    assert TreeGone(owner0, owner, r) by {
      hide TreesOk, PtesKept, Pte;
    }
    assert forall r' :: IsRoot(owner0, r') && r' != r ==> IsRoot(owner1, r') && IsRoot(owner, r') by {
      hide TreesOk, Pte;
    }
    OthersAfterFree(r, mem1, owner1, mem, owner);
    hide TreesOk, Pte;
  }

  lemma {:induction false} OthersAfterFree(r: nat, mem1: Memory, owner1: map<nat, Use>, mem: Memory, owner: map<nat, Use>)
    requires TreesOk(mem1, owner1, NoHole) && TablesGone(owner1, owner, r, Root) && SamePages(mem1, mem, owner, r) && r !in owner
    ensures forall r', v :: IsRoot(owner, r') && r' != r ==> Pte(mem, r', v) == Pte(mem1, r', v)
  {
    var h := Hole(r, Root);
    assert Recorded(mem1, owner, h) by {
      hide NodeAt;
      forall r', q | IsRoot(owner, r') && Depth(q) <= 2 && !Out(h, r', q) && NodeAt(mem1, r', q) != 0
        ensures NodeAt(mem1, r', q) in owner && owner[NodeAt(mem1, r', q)] == Table(r', q)
      {
        assert IsRoot(owner1, r');
      }
    }
    AllNodesFrame(mem1, mem, owner, h);
  }

  /** Mapping virtual page v is a panic. */
  ghost predicate Blocked(mem: Memory, r: nat, v: nat)
  {
    v >= MAXVPN || Present(Pte(mem, r, v))
  }

  /** What the new pages of an operation hold: zeros, or what the pages of another tree held. */
  datatype Source = Zeroed(flags: nat) | CopyOf(root: nat)

  ghost function WantFlags(src: Source, mem0: Memory, v: nat): (f: nat)
  {
    if src.Zeroed? then src.flags else Flags(Pte(mem0, src.root, v))
  }

  ghost function WantData(src: Source, mem0: Memory, v: nat): (data: Page)
  {
    if src.Zeroed? then ZeroPage()
    else if Ppn(Pte(mem0, src.root, v)) < |mem0| then mem0[Ppn(Pte(mem0, src.root, v))] else ZeroPage()
  }

  /** From lo to hi, where mem0 mapped nothing, root r has user pages with the source's flags and contents. */
  ghost predicate NewPages(src: Source, mem0: Memory, mem: Memory, owner: map<nat, Use>, r: nat, lo: nat, hi: nat)
  {
    && (lo < hi ==> hi <= MAXVPN)
    && (forall v :: lo <= v < hi ==> !Present(Pte(mem0, r, v)))
    && (forall v :: lo <= v < hi ==> UserPage(mem, owner, r, v, WantFlags(src, mem0, v), WantData(src, mem0, v)))
  }

  /** The pages from lo to hi are valid, readable, open to user mode, writable and executable as xperm says, and zero in every word. */
  ghost predicate ZeroPages(mem: Memory, r: nat, lo: nat, hi: nat, xperm: nat)
  {
    forall v :: lo <= v < hi ==>
      && Pte(mem, r, v) % 1024 == 1 + 2 + 16 + xperm && 0 < Ppn(Pte(mem, r, v)) < |mem|
      && forall j :: 0 <= j < 512 ==> mem[Ppn(Pte(mem, r, v))][j] == 0
  }

  lemma {:induction false} ZeroedIsZero(mem0: Memory, mem: Memory, owner: map<nat, Use>, r: nat, lo: nat, hi: nat, xperm: nat)
    requires NewPages(Zeroed(PTE_V + PTE_R + PTE_U + xperm), mem0, mem, owner, r, lo, hi)
    ensures ZeroPages(mem, r, lo, hi, xperm)
  {
    hide Pte;
    var src := Zeroed(PTE_V + PTE_R + PTE_U + xperm);
    forall v | lo <= v < hi
      ensures Pte(mem, r, v) % 1024 == 1 + 2 + 16 + xperm && 0 < Ppn(Pte(mem, r, v)) < |mem| && mem[Ppn(Pte(mem, r, v))] == ZeroPage()
    {
      assert UserPage(mem, owner, r, v, WantFlags(src, mem0, v), WantData(src, mem0, v));
    }
  }

  lemma {:induction false} NewPagesKept(src: Source, mem0: Memory, mem1: Memory, owner1: map<nat, Use>, mem: Memory, owner: map<nat, Use>,
                                        r: nat, lo: nat, hi: nat, lo': nat, hi': nat)
    requires NewPages(src, mem0, mem1, owner1, r, lo, hi) && Grown(mem1, owner1, mem, owner, r, lo', hi') && (lo' < hi' ==> hi <= lo') && IsRoot(owner1, r)
    ensures NewPages(src, mem0, mem, owner, r, lo, hi)
  {
    hide Pte, WantFlags, WantData;
    forall v | lo <= v < hi
      ensures UserPage(mem, owner, r, v, WantFlags(src, mem0, v), WantData(src, mem0, v))
    {
      assert UserPage(mem1, owner1, r, v, WantFlags(src, mem0, v), WantData(src, mem0, v));
      assert Pte(mem, r, v) == Pte(mem1, r, v);
    }
  }

  lemma {:induction false} NewPagesMore(src: Source, mem0: Memory, mem: Memory, owner: map<nat, Use>, r: nat, lo: nat, hi: nat)
    requires NewPages(src, mem0, mem, owner, r, lo, hi) && hi < MAXVPN && !Present(Pte(mem0, r, hi))
    requires UserPage(mem, owner, r, hi, WantFlags(src, mem0, hi), WantData(src, mem0, hi))
    ensures NewPages(src, mem0, mem, owner, r, lo, hi + 1)
  {
    hide Pte, WantFlags, WantData, UserPage;
  }

  lemma {:induction false} NewPagesOwned(src: Source, mem0: Memory, mem: Memory, owner: map<nat, Use>, r: nat, lo: nat, hi: nat)
    requires NewPages(src, mem0, mem, owner, r, lo, hi)
    ensures Unmappable(mem, owner, r, lo, hi, true) && AllMapped(mem, r, lo, hi)
  {
    hide Pte, WantFlags, WantData;
    forall v | lo <= v < hi
      ensures Present(Pte(mem, r, v)) && Ppn(Pte(mem, r, v)) in owner && owner[Ppn(Pte(mem, r, v))] == Leaf(r, v)
    {
      assert UserPage(mem, owner, r, v, WantFlags(src, mem0, v), WantData(src, mem0, v));
    }
  }

  /** Pages that were added and removed again leave nothing behind but tables. */
  lemma {:induction false} Undone(src: Source, mem0: Memory, owner0: map<nat, Use>, mem1: Memory, owner1: map<nat, Use>, mem2: Memory, owner2: map<nat, Use>,
                                  r: nat, lo: nat, hi: nat)
    requires TreesOk(mem0, owner0, NoHole) && Grown(mem0, owner0, mem1, owner1, r, lo, hi) && NewPages(src, mem0, mem1, owner1, r, lo, hi)
    requires Shrunk(mem1, owner1, mem2, owner2, r, lo, hi) && IsRoot(owner0, r)
    ensures Grown(mem0, owner0, mem2, owner2, r, 0, 0)
  {
    hide UserPage, WantFlags, WantData;
    assert forall p :: p in owner0 && owner0[p].Leaf? && owner0[p].root == r ==> !(lo <= owner0[p].vpn < hi) by {
      hide Pte, Recorded, EntriesOk, Grown, Shrunk;
    }
    forall v | lo <= v < hi
      ensures Pte(mem0, r, v) == 0
    {
      AbsentIsZero(mem0, owner0, r, v);
    }
    hide TreesOk, Pte;
    assert forall r' :: IsRoot(owner0, r') ==> IsRoot(owner1, r');
    assert PtesKept(owner0, mem0, mem2, r, 0, 0) by {
      hide OnlyNew, Kept;
    }
    hide PtesKept;
  }

  lemma {:induction false} AbsentIsZero(mem: Memory, owner: map<nat, Use>, r: nat, v: nat)
    requires TreesOk(mem, owner, NoHole) && IsRoot(owner, r) && !Present(Pte(mem, r, v))
    ensures Pte(mem, r, v) == 0
  {
    if NodeAt(mem, r, TablePath(v)) != 0 {
      EntryHere(mem, owner, r, TablePath(v), Px0(v));
    }
  }

  lemma {:induction false} PermsOk(xperm: nat)
    requires xperm in {0, 4, 8, 12}
    ensures PermOk(PTE_R + PTE_U + xperm) && WithV(PTE_R + PTE_U + xperm) == PTE_V + PTE_R + PTE_U + xperm
  {
  }

  lemma {:induction false} FlagsOk(pte: nat)
    requires EntryOk(pte, 2) && Present(pte)
    ensures PermOk(Flags(pte)) && WithV(Flags(pte)) == Flags(pte)
  {
    assert Flags(pte) % 16 == pte % 16 && Flags(pte) % 2 == pte % 2;
  }

  lemma {:induction false} BelowPagesUp(a: nat, sz: nat)
    ensures a * PGSIZE < sz <==> a < PagesUp(sz)
  {
  }

  lemma {:induction false} OldPte(mem0: Memory, owner0: map<nat, Use>, mem: Memory, owner: map<nat, Use>, r: nat, r0: nat, lo: nat, hi: nat, v: nat)
    requires Grown(mem0, owner0, mem, owner, r, lo, hi) && IsRoot(owner0, r0) && r0 != r
    ensures v < NVPN ==> Pte(mem, r0, v) == Pte(mem0, r0, v)
  {
    hide Pte;
  }

  /** The old tree's page still has the contents it had at the start. */
  lemma {:induction false} OldPage(mem0: Memory, owner0: map<nat, Use>, mem: Memory, owner: map<nat, Use>, r: nat, r0: nat, v: nat, n: nat)
    requires TreesOk(mem0, owner0, NoHole) && Grown(mem0, owner0, mem, owner, r, 0, v) && IsRoot(owner0, r0) && r0 != r && v < n && v < NVPN
    requires Owned(mem0, owner0, r0, 0, n) && Present(Pte(mem0, r0, v))
    ensures
      var p := Ppn(Pte(mem0, r0, v));
      Pte(mem, r0, v) == Pte(mem0, r0, v) && p < |mem| && mem[p] == WantData(CopyOf(r0), mem0, v) && Flags(Pte(mem, r0, v)) == WantFlags(CopyOf(r0), mem0, v)
  {
    hide Pte;
    var p := Ppn(Pte(mem0, r0, v));
    assert owner0[p] == Leaf(r0, v);
    InRange(mem0, owner0, NoHole, p);
  }

  /** What a successful uvmcopy means for the two trees afterwards: equal flags and contents, no page in common. */
  lemma {:induction false} CopyIsSeparate(mem0: Memory, owner0: map<nat, Use>, mem: Memory, owner: map<nat, Use>, r0: nat, r: nat, n: nat, v: nat, u: nat)
    requires TreesOk(mem0, owner0, NoHole) && IsRoot(owner0, r0) && r != r0 && Owned(mem0, owner0, r0, 0, n) && AllMapped(mem0, r0, 0, n)
    requires Grown(mem0, owner0, mem, owner, r, 0, n) && NewPages(CopyOf(r0), mem0, mem, owner, r, 0, n) && v < n && u < n
    ensures Present(Pte(mem, r, v)) && Present(Pte(mem, r0, v)) && Flags(Pte(mem, r, v)) == Flags(Pte(mem, r0, v))
    ensures Ppn(Pte(mem, r, v)) != Ppn(Pte(mem, r0, u))
    ensures Ppn(Pte(mem, r, v)) < |mem| && Ppn(Pte(mem, r0, v)) < |mem| && mem[Ppn(Pte(mem, r, v))] == mem[Ppn(Pte(mem, r0, v))]
  {
    hide Pte;
    assert UserPage(mem, owner, r, v, WantFlags(CopyOf(r0), mem0, v), WantData(CopyOf(r0), mem0, v));
    assert Present(Pte(mem0, r0, v)) && Present(Pte(mem0, r0, u));
    assert Pte(mem, r0, v) == Pte(mem0, r0, v) && Pte(mem, r0, u) == Pte(mem0, r0, u);
    var p, q := Ppn(Pte(mem0, r0, v)), Ppn(Pte(mem0, r0, u));
    assert owner0[p] == Leaf(r0, v) && owner0[q] == Leaf(r0, u);
    InRange(mem0, owner0, NoHole, p);
  }

  /** p was taken from the free list, and only p was written. */
  ghost predicate Fresh(mem0: Memory, owner0: map<nat, Use>, mem: Memory, owner: map<nat, Use>, p: nat)
  {
    p !in owner0 && 0 < p < |mem0| && owner == owner0[p := Loose] && Freed(mem0, mem, p)
  }

  ghost predicate Freed(mem0: Memory, mem: Memory, p: nat)
  {
    |mem| == |mem0| && forall q :: 0 <= q < |mem| && q != p ==> mem[q] == mem0[q]
  }

  lemma {:induction false} FreshFacts(mem0: Memory, owner0: map<nat, Use>, mem: Memory, owner: map<nat, Use>, p: nat, r: nat)
    requires Fresh(mem0, owner0, mem, owner, p) && IsRoot(owner0, r) && TreesOk(mem0, owner0, NoHole)
    ensures p < |mem| && IsRoot(owner, r) && p in owner && owner[p] == Loose
    ensures forall v :: Pte(mem, r, v) == Pte(mem0, r, v)
  {
    AllNodesFrame(mem0, mem, owner0, NoHole);
  }

  lemma {:induction false} OnePage(v: nat, p: nat)
    ensures v * PGSIZE / PGSIZE == v && p * PGSIZE / PGSIZE == p && PagesTouched(v * PGSIZE, PGSIZE) == 1
  {
  }

  lemma {:induction false} OthersAfterFresh(mem0: Memory, owner0: map<nat, Use>, mem: Memory, c: nat)
    requires TreesOk(mem0, owner0, NoHole) && c !in owner0 && 0 < c < |mem0| && |mem| == |mem0|
    requires forall p :: 0 <= p < |mem| && p != c ==> mem[p] == mem0[p]
    ensures PtesKept(owner0, mem0, mem, c, 0, NVPN) && Kept(mem0, owner0, mem, owner0[c := Table(c, Root)])
  {
    AllNodesFrame(mem0, mem, owner0, NoHole);
    hide NodeAt, Pte;
  }

  lemma {:induction false} EmptyTree(mem: Memory, r: nat, q: Path)
    requires 0 < r < |mem| && mem[r] == ZeroPage()
    ensures q != Root ==> NodeAt(mem, r, q) == 0
    ensures forall i :: Word(mem, r, q, i) == 0
    decreases q
  {
    if q.Step? {
      EmptyTree(mem, r, q.up);
      assert Word(mem, r, q.up, q.i) == 0;
    }
  }

  lemma {:induction false} NewRoot(mem: Memory, owner: map<nat, Use>, r: nat)
    requires TreesOk(mem, owner, NoHole) && r in owner && owner[r] == Loose && 0 < r < |mem| && mem[r] == ZeroPage()
    ensures TreesOk(mem, owner[r := Table(r, Root)], NoHole)
    ensures forall v :: 0 <= v < NVPN ==> Pte(mem, r, v) == 0
  {
    var owner' := owner[r := Table(r, Root)];
    forall q
      ensures q != Root ==> NodeAt(mem, r, q) == 0
    {
      EmptyTree(mem, r, q);
    }
    forall v | 0 <= v < NVPN
      ensures Pte(mem, r, v) == 0
    {
      EmptyTree(mem, r, TablePath(v));
    }
    assert NodeAt(mem, r, Root) == r;
    hide NodeAt, Pte;
    assert forall r' :: IsRoot(owner', r') <==> r' == r || IsRoot(owner, r');
    assert EntriesOk(mem, owner') by {
      hide Recorded, Placed;
    }
    hide EntriesOk;
    assert Recorded(mem, owner', NoHole);
    assert Placed(mem, owner', NoHole);
  }

  lemma {:induction false} LooseKept(mem1: Memory, owner1: map<nat, Use>, mem: Memory, owner: map<nat, Use>, r: nat, lo: nat, hi: nat, p: nat)
    requires Grown(mem1, owner1, mem, owner, r, lo, hi) && p in owner1 && owner1[p] == Loose && p < |mem1| && IsRoot(owner1, r)
    ensures |mem| == |mem1| && p in owner && owner[p] == Loose && mem[p] == mem1[p] && IsRoot(owner, r)
  {
    hide Pte;
  }

  /** A page taken and given back, with perhaps some tables made in between. */
  lemma {:induction false} GivenBack(mem0: Memory, owner0: map<nat, Use>, mem1: Memory, owner1: map<nat, Use>, mem2: Memory, owner2: map<nat, Use>,
                                     mem3: Memory, owner3: map<nat, Use>, r: nat, p: nat, v: nat)
    requires TreesOk(mem0, owner0, NoHole) && Fresh(mem0, owner0, mem1, owner1, p)
    requires Grown(mem1, owner1, mem2, owner2, r, v, v) && TreesOk(mem2, owner2, NoHole) && p in owner2 && owner2[p] == Loose
    requires owner3 == owner2 - {p} && Freed(mem2, mem3, p) && IsRoot(owner0, r)
    ensures Grown(mem0, owner0, mem3, owner3, r, 0, 0) && IsRoot(owner3, r)
  {
    hide NodeAt, Pte, TreesOk;
    assert PtesKept(owner0, mem0, mem3, r, 0, 0) by {
      FreshPtes(mem0, owner0, mem1, owner1, p);
      FreedPtes(mem2, owner2, mem3, p);
      hide OnlyNew;
      assert forall r' :: IsRoot(owner0, r') ==> IsRoot(owner1, r') && IsRoot(owner2, r');
    }
    hide PtesKept;
    assert IsRoot(owner1, r) && IsRoot(owner2, r);
  }

  lemma {:induction false} FreshPtes(mem0: Memory, owner0: map<nat, Use>, mem: Memory, owner: map<nat, Use>, p: nat)
    requires TreesOk(mem0, owner0, NoHole) && Fresh(mem0, owner0, mem, owner, p)
    ensures forall r, v :: IsRoot(owner0, r) ==> Pte(mem, r, v) == Pte(mem0, r, v)
    ensures forall r :: IsRoot(owner0, r) ==> IsRoot(owner, r)
  {
    AllNodesFrame(mem0, mem, owner0, NoHole);
  }

  lemma {:induction false} FreedPtes(mem0: Memory, owner0: map<nat, Use>, mem: Memory, p: nat)
    requires TreesOk(mem0, owner0, NoHole) && Freed(mem0, mem, p) && p in owner0 && owner0[p] == Loose
    ensures forall r, v :: IsRoot(owner0, r) ==> Pte(mem, r, v) == Pte(mem0, r, v)
  {
    AllNodesFrame(mem0, mem, owner0, NoHole);
  }

  lemma {:induction false} PageAdded(mem0: Memory, owner0: map<nat, Use>, mem1: Memory, owner1: map<nat, Use>, mem: Memory, owner: map<nat, Use>,
                                     r: nat, v: nat, p: nat)
    requires TreesOk(mem0, owner0, NoHole) && Fresh(mem0, owner0, mem1, owner1, p) && p in owner
    requires Grown(mem1, owner1, mem, owner, r, v, v + 1)
    ensures Grown(mem0, owner0, mem, owner[p := Leaf(r, v)], r, v, v + 1)
  {
    hide NodeAt, Pte;
    FreshPtes(mem0, owner0, mem1, owner1, p);
    hide TreesOk;
  }

  lemma {:induction false} LeafOwned(mem: Memory, owner: map<nat, Use>, r: nat, v: nat, p: nat, flags: nat)
    requires TreesOk(mem, owner, NoHole) && IsRoot(owner, r) && p in owner && owner[p] == Loose && v < NVPN
    requires flags < 1024 && flags % 2 == 1 && Pte(mem, r, v) == MakePte(p, flags)
    ensures TreesOk(mem, owner[p := Leaf(r, v)], NoHole) && 0 < p < |mem|
  {
    hide NodeAt, Pte;
    var owner' := owner[p := Leaf(r, v)];
    assert forall r' :: IsRoot(owner', r') == IsRoot(owner, r');
    assert Recorded(mem, owner', NoHole) by {
      hide EntriesOk;
    }
    assert EntriesOk(mem, owner') by {
      hide Recorded, Placed;
    }
    hide Recorded, EntriesOk;
    assert Placed(mem, owner', NoHole);
  }

  /** PGROUNDUP(sz) / PGSIZE */
  function PagesUp(sz: nat): (n: nat)
  {
    (sz + PGSIZE - 1) / PGSIZE
  }

  lemma {:induction false} PagesUpMonotone(a: nat, b: nat)
    ensures a <= b ==> PagesUp(a) <= PagesUp(b)
  {
  }

  lemma {:induction false} NarrowUnmappable(mem: Memory, owner: map<nat, Use>, r: nat, lo: nat, hi: nat, doFree: bool)
    requires Unmappable(mem, owner, r, lo, hi, doFree) && lo < hi
    ensures Unmappable(mem, owner, r, lo, lo + 1, doFree)
  {
    hide Pte;
  }

  lemma {:induction false} NoLeafOwned(mem: Memory, owner: map<nat, Use>, r: nat, v: nat)
    requires TreesOk(mem, owner, NoHole) && NoneOwned(owner, r, v, v + 1)
    ensures FreedLeaf(mem, owner, mem, owner, r, v, 0)
  {
    hide Pte, NodeAt;
    assert 0 !in owner;
  }

  /** The user page p of (r, v), if any, is out of use; the trees are as they were. */
  ghost predicate FreedLeaf(mem0: Memory, owner0: map<nat, Use>, mem: Memory, owner: map<nat, Use>, r: nat, v: nat, p: nat)
  {
    && |mem| == |mem0|
    && owner == owner0 - {p} && (p in owner0 ==> owner0[p] == Leaf(r, v))
    && (forall q :: q in owner ==> owner[q] != Leaf(r, v))
    && (forall q :: q in owner && q < |mem| ==> mem[q] == mem0[q])
    && (forall r', q :: IsRoot(owner0, r') && Depth(q) <= 2 ==> NodeAt(mem, r', q) == NodeAt(mem0, r', q))
    && (forall r', u :: IsRoot(owner0, r') ==> Pte(mem, r', u) == Pte(mem0, r', u))
  }

  lemma {:induction false} LeafLoose(mem: Memory, owner: map<nat, Use>, r: nat, v: nat, p: nat)
    requires TreesOk(mem, owner, NoHole) && p in owner && owner[p] == Leaf(r, v)
    ensures TreesOk(mem, owner[p := Loose], NoHole) && 0 < p < |mem|
  {
    hide NodeAt, Pte;
    TreesFrame(mem, mem, owner, owner[p := Loose], NoHole);
  }

  lemma {:induction false} Managed(first: nat, limit: nat, owner: map<nat, Use>, free: seq<nat>, p: nat)
    requires Partition(first, limit, owner, free) && p in owner
    ensures first <= p < limit
  {
  }

  lemma {:induction false} FreedLeafFacts(mem0: Memory, owner0: map<nat, Use>, mem: Memory, owner: map<nat, Use>, r: nat, v: nat, p: nat)
    requires TreesOk(mem0, owner0, NoHole) && p in owner0 && owner0[p] == Leaf(r, v) && |mem| == |mem0|
    requires owner == owner0 - {p} && forall q :: 0 <= q < |mem| && q != p ==> mem[q] == mem0[q]
    ensures FreedLeaf(mem0, owner0, mem, owner, r, v, p)
  {
    AllNodesFrame(mem0, mem, owner0, NoHole);
    hide NodeAt, Pte;
    forall q | q in owner
      ensures owner[q] != Leaf(r, v)
    {
      assert owner0[q].Leaf? ==> Target(Pte(mem0, owner0[q].root, owner0[q].vpn)) == q;
    }
  }

  lemma {:induction false} NotPresent()
    ensures !Present(0)
  {
  }

  lemma {:induction false} LeafEntry(w: nat)
    requires EntryOk(w, 2)
    ensures Present(w) ==> Flags(w) != PTE_V
    ensures EntryOk(0, 2)
  {
  }

  lemma {:induction false} LeafUse(mem: Memory, owner: map<nat, Use>, r: nat, v: nat)
    requires Unmappable(mem, owner, r, v, v + 1, true) && v < NVPN && Present(Pte(mem, r, v))
    ensures Ppn(Pte(mem, r, v)) in owner && owner[Ppn(Pte(mem, r, v))] == Leaf(r, v)
  {
    hide Pte;
  }

  lemma {:induction false} StillThere(mem0: Memory, owner0: map<nat, Use>, mem: Memory, owner: map<nat, Use>, r: nat, v: nat, p: nat)
    requires FreedLeaf(mem0, owner0, mem, owner, r, v, p) && IsRoot(owner0, r)
    ensures NodeAt(mem, r, TablePath(v)) == NodeAt(mem0, r, TablePath(v)) && IsRoot(owner, r)
    ensures forall q :: q in owner ==> owner[q] != Leaf(r, v)
  {
    hide NodeAt, Pte;
  }

  lemma {:induction false} LeafGone(mem0: Memory, owner0: map<nat, Use>, mem1: Memory, owner1: map<nat, Use>, mem: Memory, r: nat, v: nat, p: nat)
    requires FreedLeaf(mem0, owner0, mem1, owner1, r, v, p)
    requires Grown(mem1, owner1, mem, owner1, r, v, v + 1) && Pte(mem, r, v) == 0
    ensures Shrunk(mem0, owner0, mem, owner1, r, v, v + 1)
  {
    hide NodeAt, Pte;
    assert forall r' :: IsRoot(owner0, r') ==> IsRoot(owner1, r');
  }

  /** n pages from a, none mapped in mem0, are mapped to n physical pages from p in mem. */
  ghost predicate MappedRun(mem0: Memory, mem: Memory, r: nat, a: nat, n: nat, p: nat, flags: nat)
  {
    && flags < 1024 && (n > 0 ==> a + n <= MAXVPN)
    && (forall v :: a <= v < a + n ==> !Present(Pte(mem0, r, v)))
    && (forall v :: a <= v < a + n ==> Pte(mem, r, v) == MakePte(p + (v - a), flags))
  }

  lemma {:induction false} MappedNone(mem: Memory, r: nat, a: nat, p: nat, flags: nat)
    requires flags < 1024
    ensures MappedRun(mem, mem, r, a, 0, p, flags)
  {
  }

  lemma {:induction false} RunKept(mem0: Memory, mem1: Memory, mem2: Memory, r: nat, a: nat, n: nat, p: nat, flags: nat)
    requires MappedRun(mem0, mem1, r, a, n, p, flags)
    requires forall v :: 0 <= v < NVPN ==> Pte(mem2, r, v) == Pte(mem1, r, v)
    ensures MappedRun(mem0, mem2, r, a, n, p, flags)
  {
    hide Pte;
  }

  lemma {:induction false} TouchedPages(va: nat, size: nat)
    requires size > 0
    ensures (va + size - 1) / PGSIZE >= va / PGSIZE && PagesTouched(va, size) == (va + size - 1) / PGSIZE - va / PGSIZE + 1
  {
  }

  /** The number of pages that size bytes at va lie in. */
  function PagesTouched(va: nat, size: nat): (n: nat)
  {
    if size == 0 then 0 else (va + size - 1) / PGSIZE - va / PGSIZE + 1
  }

  lemma {:induction false} Paths(v: nat)
    ensures PathAt(2, v) == Root && PathAt(1, v) == Step(PathAt(2, v), Px(2, v)) && PathAt(0, v) == Step(PathAt(1, v), Px(1, v))
    ensures PathAt(0, v) == TablePath(v) && Px(0, v) == Px0(v)
  {
  }

  lemma {:induction false} RootHere(mem: Memory, owner: map<nat, Use>, r: nat)
    requires TreesOk(mem, owner, NoHole) && IsRoot(owner, r)
    ensures 0 < r == NodeAt(mem, r, Root)
  {
  }

  lemma {:induction false} GrownRoot(mem0: Memory, owner0: map<nat, Use>, mem: Memory, owner: map<nat, Use>, r: nat, lo: nat, hi: nat, r': nat)
    requires Grown(mem0, owner0, mem, owner, r', lo, hi) && IsRoot(owner0, r)
    ensures IsRoot(owner, r)
  {
  }

  lemma {:induction false} SamePte(mem0: Memory, owner0: map<nat, Use>, mem: Memory, owner: map<nat, Use>, r: nat, v: nat)
    requires Grown(mem0, owner0, mem, owner, r, 0, 0) && IsRoot(owner0, r) && v < NVPN
    ensures Pte(mem, r, v) == Pte(mem0, r, v)
  {
    hide Pte;
  }

  lemma {:induction false} PtesOutside(mem0: Memory, owner0: map<nat, Use>, mem: Memory, owner: map<nat, Use>, r: nat, lo: nat, hi: nat)
    requires Grown(mem0, owner0, mem, owner, r, lo, hi) && IsRoot(owner0, r)
    ensures forall v :: 0 <= v < NVPN && !(lo <= v < hi) ==> Pte(mem, r, v) == Pte(mem0, r, v)
  {
    hide Pte;
  }

  /** A page is in use as a user page only where its entry is valid. */
  lemma {:induction false} NotOwned(mem: Memory, owner: map<nat, Use>, r: nat, v: nat)
    requires TreesOk(mem, owner, NoHole) && !Present(Pte(mem, r, v))
    ensures forall p :: p in owner ==> owner[p] != Leaf(r, v)
  {
    hide Pte;
  }

  lemma {:induction false} EntrySet(mem: Memory, n: nat, i: nat, w: nat)
    requires n < |mem| && i < NPTE
    ensures forall p :: 0 <= p < |mem| && p != n ==> SetEntry(mem, n, i, w)[p] == mem[p]
  {
  }

  lemma {:induction false} InRange(mem: Memory, owner: map<nat, Use>, h: Hole, p: nat)
    requires TreesOk(mem, owner, h) && p in owner
    ensures 0 < p < |mem|
  {
    hide NodeAt, Pte;
  }

  /** The entry in a table, and what it says. */
  lemma {:induction false} EntryHere(mem: Memory, owner: map<nat, Use>, r: nat, q: Path, i: nat)
    requires TreesOk(mem, owner, NoHole) && IsRoot(owner, r) && Depth(q) <= 2 && i < NPTE && NodeAt(mem, r, q) != 0
    ensures 0 < NodeAt(mem, r, q) < |mem| && Word(mem, r, q, i) == mem[NodeAt(mem, r, q)][i]
    ensures NodeAt(mem, r, Step(q, i)) == Target(Word(mem, r, q, i))
    ensures EntryOk(Word(mem, r, q, i), Depth(q))
  {
    TheTable(mem, owner, NoHole, r, q);
  }

  /** Taking a fresh page leaves the trees alone. */
  lemma {:induction false} FreshPage(mem0: Memory, owner0: map<nat, Use>, mem: Memory, c: nat, r: nat, q: Path, i: nat)
    requires TreesOk(mem0, owner0, NoHole) && c !in owner0 && 0 < c < |mem0| && mem == mem0[c := ZeroPage()]
    requires IsRoot(owner0, r) && Depth(q) <= 2
    ensures IsRoot(owner0[c := Loose], r) && NodeAt(mem, r, q) == NodeAt(mem0, r, q) && Word(mem, r, q, i) == Word(mem0, r, q, i)
  {
    NodeFrame(mem0, mem, owner0, NoHole, r, q);
  }

  lemma {:induction false} AttachGrows(mem0: Memory, owner0: map<nat, Use>, mem1: Memory, mem: Memory, owner1: map<nat, Use>, r: nat, q: Path, i: nat, c: nat)
    requires TreesOk(mem0, owner0, NoHole) && c !in owner0 && 0 < c < |mem0| && mem1 == mem0[c := ZeroPage()] && owner1 == owner0[c := Loose]
    requires IsRoot(owner0, r) && Depth(q) <= 2 && NodeAt(mem0, r, q) != 0 && i < NPTE && NodeAt(mem1, r, q) == NodeAt(mem0, r, q)
    requires NodeAt(mem0, r, q) < |mem0| && mem == SetEntry(mem1, NodeAt(mem0, r, q), i, MakePte(c, 1))
    requires forall r', v :: IsRoot(owner1, r') ==> Pte(mem, r', v) == Pte(mem1, r', v)
    ensures Grown(mem0, owner0, mem, owner1[c := Table(r, Step(q, i))], r, 0, 0)
  {
    AllNodesFrame(mem0, mem1, owner0, NoHole);
    TheTable(mem0, owner0, NoHole, r, q);
    hide NodeAt, Pte, TreesOk;
    assert forall r' :: IsRoot(owner0, r') ==> IsRoot(owner1, r');
  }

  /** Writing a page that is in use does not touch the free list. */
  lemma {:induction false} KeepList(mem: Memory, mem': Memory, head: nat, first: nat, limit: nat, owner: map<nat, Use>, free: seq<nat>, n: nat)
    requires Chain(mem, head, free) && Partition(first, limit, owner, free) && n in owner && n < |mem|
    requires |mem'| == |mem| && forall p :: 0 <= p < |mem| && p != n ==> mem'[p] == mem[p]
    ensures Chain(mem', head, free)
  {
    ChainFrame(mem, mem', head, free);
  }

  lemma {:induction false} NotFree(first: nat, limit: nat, owner: map<nat, Use>, free: seq<nat>, p: nat)
    requires Partition(first, limit, owner, free) && p in owner
    ensures p !in free
  {
  }

  // ---------------------------------------------------------------- a table that stays

  /** Mapping the first page of an empty tree takes four pages: the root, two tables, the page. */
  lemma {:induction false} FourPages(mem: Memory, owner: map<nat, Use>, r: nat, flags: nat, data: Page)
    requires TreesOk(mem, owner, NoHole) && IsRoot(owner, r) && UserPage(mem, owner, r, 0, flags, data)
    ensures exists a, b, c, d :: {a, b, c, d} <= owner.Keys && a != b && a != c && a != d && b != c && b != d && c != d
  {
    var up := Step(Root, Px2(0));
    assert NodeAt(mem, r, TablePath(0)) != 0 && NodeAt(mem, r, up) != 0;
    TheTable(mem, owner, NoHole, r, up);
    TheTable(mem, owner, NoHole, r, TablePath(0));
    var a, b, c, d := r, NodeAt(mem, r, up), NodeAt(mem, r, TablePath(0)), Ppn(Pte(mem, r, 0));
    hide NodeAt, Pte, TreesOk;
    assert {a, b, c, d} <= owner.Keys && a != b && a != c && a != d && b != c && b != d && c != d;
  }

  /** So three managed pages are too few. */
  lemma {:induction false} TooFewPages(mem: Memory, owner: map<nat, Use>, free: seq<nat>, r: nat, src: Source, mem0: Memory)
    requires TreesOk(mem, owner, NoHole) && IsRoot(owner, r) && Partition(1, 4, owner, free)
    ensures !NewPages(src, mem0, mem, owner, r, 0, 1)
  {
    if NewPages(src, mem0, mem, owner, r, 0, 1) {
      FourPages(mem, owner, r, WantFlags(src, mem0, 0), WantData(src, mem0, 0));
    }
  }

  lemma {:induction false} EmptyTreeSpends(mem: Memory, owner: map<nat, Use>, r: nat)
    requires TreesOk(mem, owner, NoHole) && owner == map[r := Table(r, Root)]
    ensures Spends(mem, r, 0, 1, 2)
  {
    HadIff(mem, owner, r, 0);
    hide TreesOk, Had;
    assert !HasTable(owner, r, 0);
    assert !Had(mem, r, 0);
  }

  lemma {:induction false} EmptyTreeFree(mem: Memory, r: nat)
    requires forall v :: 0 <= v < NVPN ==> Pte(mem, r, v) == 0
    ensures !Blocked(mem, r, 0)
  {
  }

  /**
    A failed uvmalloc that does not free what it allocated: of three managed pages one is the
    root; growing to one page takes one for the page and one for a table, finds none for the
    next table, and gives back the page but not the table.
   */
  method FailedGrowthKeepsTable() returns (m: Machine, r: nat, res: MapResult)
    ensures fresh(m) && m.Valid() && IsRoot(m.owner, r) && res.NoMemory?
    ensures exists t :: t in m.owner && t != r && m.owner[t].Table?
  {
    hide Chain, Partition, TreesOk, Pte, Grown, NewPages, Spends, Blocked, Kept, PtesKept;
    m := new Machine(PGSIZE, 4 * PGSIZE);
    assert m.first == 1 && m.limit == 4;
    r := m.Uvmcreate();
    ghost var mem0, owner0 := m.mem, m.owner;
    EmptyTreeSpends(mem0, owner0, r);
    EmptyTreeFree(mem0, r);
    var sz;
    res, sz := m.Uvmalloc(r, 0, PGSIZE, 4);
    assert PagesUp(0) == 0 && PagesUp(PGSIZE) == 1;
    if !res.Remap? {
      TooFewPages(m.mem, m.owner, m.free, r, Zeroed(PTE_V + PTE_R + PTE_U + 4), mem0);
    }
    GrownUses(mem0, owner0, m.mem, m.owner, r, 0, 0);
  }
}

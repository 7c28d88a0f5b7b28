/**
  Sv39 page tables in physical memory: three levels of 512-entry tables that together denote a
  flat map from virtual page numbers to page table entries, and a record of which physical page
  is used for what. This module holds the pure facts; VirtualMemory holds the operations.
 */
module PageTables {

  const NPTE := 512
  const NVPN := 0x800_0000

  /** A physical page, as 512 words. */
  type Page = s: seq<nat> | |s| == 512 witness seq(512, _ => 0)

  type Memory = seq<Page>

  /** Where a table hangs: the root, or entry i of the table above. */
  datatype Path = Root | Step(up: Path, i: nat)

  function Depth(q: Path): (d: nat)
  {
    if q.Root? then 0 else Depth(q.up) + 1
  }

  /** The valid bit, PTE_V. */
  predicate Present(pte: nat)
  {
    pte % 2 == 1
  }

  /** PTE2PA, as a page number */
  function Ppn(pte: nat): (p: nat)
  {
    pte / 1024
  }

  /** PTE_FLAGS */
  function Flags(pte: nat): (f: nat)
    ensures f < 1024
  {
    pte % 1024
  }

  /** PA2PTE of a page, with flags */
  function MakePte(p: nat, flags: nat): (pte: nat)
    requires flags < 1024
    ensures Ppn(pte) == p && Flags(pte) == flags && (Present(pte) <==> flags % 2 == 1)
  {
    p * 1024 + flags
  }

  /** One of PTE_R, PTE_W and PTE_X, bits 1 to 3. */
  predicate HasRwx(pte: nat)
  {
    pte % 16 >= 2
  }

  /** The page an entry points to; 0 if it is not valid. */
  function Target(pte: nat): (p: nat)
  {
    if Present(pte) then Ppn(pte) else 0
  }

  function Entry(mem: Memory, n: nat, i: nat): (w: nat)
  {
    if n == 0 || n >= |mem| || i >= NPTE then 0 else mem[n][i]
  }

  /** The table at path q of the tree under root r; 0 if there is none. */
  function NodeAt(mem: Memory, r: nat, q: Path): (n: nat)
  {
    if q.Root? then r else Target(Entry(mem, NodeAt(mem, r, q.up), q.i))
  }

  /** Entry i of the table at q. */
  function Word(mem: Memory, r: nat, q: Path, i: nat): (w: nat)
  {
    Entry(mem, NodeAt(mem, r, q), i)
  }

  // ---------------------------------------------------------------- virtual page numbers

  /** PX(level, va) for level 2, 1 and 0 */
  function Px2(v: nat): (i: nat)
  {
    v / 0x4_0000 % 512
  }

  function Px1(v: nat): (i: nat)
  {
    v / 512 % 512
  }

  function Px0(v: nat): (i: nat)
    ensures i < NPTE
  {
    v % 512
  }

  function TablePath(v: nat): (q: Path)
    ensures Depth(q) == 2
  {
    Step(Step(Root, Px2(v)), Px1(v))
  }

  /** What the tree denotes: the leaf entry for virtual page v, or 0. */
  function Pte(mem: Memory, r: nat, v: nat): (w: nat)
  {
    Word(mem, r, TablePath(v), Px0(v))
  }

  /** Virtual address va is looked up in three tables, by bits 30 to 38, 21 to 29 and 12 to 20. */
  lemma {:induction false} ThreeLevels(mem: Memory, r: nat, va: nat)
    requires 0 < r < |mem|
    ensures
      var a := mem[r][va / 0x4000_0000 % 512];
      a % 2 == 1 && 0 < a / 1024 < |mem| ==>
        var b := mem[a / 1024][va / 0x20_0000 % 512];
        if b % 2 == 1 && 0 < b / 1024 < |mem| then Pte(mem, r, va / 4096) == mem[b / 1024][va / 4096 % 512]
        else Pte(mem, r, va / 4096) == 0
    ensures mem[r][va / 0x4000_0000 % 512] % 2 == 0 ==> Pte(mem, r, va / 4096) == 0
  {
    var v := va / 4096;
    assert Px2(v) == va / 0x4000_0000 % 512 && Px1(v) == va / 0x20_0000 % 512;
    assert NodeAt(mem, r, Step(Root, Px2(v))) == Target(mem[r][Px2(v)]);
    assert TablePath(v).up == Step(Root, Px2(v));
  }

  /** An entry is a leaf when it may be read, written or executed: bits 1, 2 and 3. */
  lemma {:induction false} LeafBits(pte: nat)
    ensures HasRwx(pte) <==> pte / 2 % 2 == 1 || pte / 4 % 2 == 1 || pte / 8 % 2 == 1
  {
    var q, m := pte / 16, pte % 16;
    assert pte == 16 * q + m;
    assert pte / 2 == 8 * q + m / 2;
    assert pte / 4 == 4 * q + m / 4;
    assert pte / 8 == 2 * q + m / 8;
    LowBit(4 * q, m / 2);
    LowBit(2 * q, m / 4);
    LowBit(q, m / 8);
    assert m < 16;
  }

  lemma {:induction false} LowBit(k: nat, m: nat)
    ensures (2 * k + m) % 2 == m % 2
  {
  }

  lemma {:induction false} PathInjective(v: nat, w: nat)
    requires v < NVPN && w < NVPN && TablePath(v) == TablePath(w) && Px0(v) == Px0(w)
    ensures v == w
  {
    Recompose(v);
    Recompose(w);
  }

  lemma {:induction false} Recompose(v: nat)
    requires v < NVPN
    ensures v == Px2(v) * 0x4_0000 + Px1(v) * 512 + Px0(v)
  {
    assert v / 512 / 512 == v / 0x4_0000;
  }

  /** Every slot of every lowest table is the entry of a virtual page. */
  lemma {:induction false} SlotVpn(a: nat, b: nat, j: nat) returns (v: nat)
    requires a < NPTE && b < NPTE && j < NPTE
    ensures v < NVPN && TablePath(v) == Step(Step(Root, a), b) && Px0(v) == j
  {
    v := a * 0x4_0000 + b * 512 + j;
    assert v / 512 == a * 512 + b;
    assert v / 0x4_0000 == v / 512 / 512;
  }

  // ---------------------------------------------------------------- what a page is used for

  /** A page table page, a page of user memory, or a page the kernel holds otherwise. */
  datatype Use = Table(root: nat, path: Path) | Leaf(root: nat, vpn: nat) | Loose

  predicate IsRoot(owner: map<nat, Use>, r: nat)
  {
    r in owner && owner[r] == Table(r, Root)
  }

  predicate Below(q: Path, top: Path)
  {
    q == top || (q.Step? && Below(q.up, top))
  }

  /** The part of a tree that is being freed. */
  datatype Hole = NoHole | Hole(root: nat, top: Path)

  predicate Out(h: Hole, r: nat, q: Path)
  {
    h.Hole? && h.root == r && Below(q, h.top)
  }

  /** Every table of every tree is recorded as that table. */
  ghost predicate Recorded(mem: Memory, owner: map<nat, Use>, h: Hole)
  {
    forall r, q ::
      IsRoot(owner, r) && Depth(q) <= 2 && !Out(h, r, q) && NodeAt(mem, r, q) != 0 ==>
        NodeAt(mem, r, q) in owner && owner[NodeAt(mem, r, q)] == Table(r, q)
  }

  /** Every recorded table and user page is where it is recorded to be. */
  ghost predicate Placed(mem: Memory, owner: map<nat, Use>, h: Hole)
  {
    forall p :: p in owner ==>
      && 0 < p < |mem|
      && (owner[p].Table? ==>
        IsRoot(owner, owner[p].root) && Depth(owner[p].path) <= 2 && !Out(h, owner[p].root, owner[p].path)
        && NodeAt(mem, owner[p].root, owner[p].path) == p)
      && (owner[p].Leaf? ==>
        IsRoot(owner, owner[p].root) && owner[p].vpn < NVPN && !Out(h, owner[p].root, TablePath(owner[p].vpn))
        && Target(Pte(mem, owner[p].root, owner[p].vpn)) == p)
  }

  /** Entries are empty or valid; those of the upper tables point to tables, those of the lowest are leaves. */
  predicate EntryOk(w: nat, depth: nat)
  {
    w == 0 || (Present(w) && if depth < 2 then Flags(w) == 1 && Ppn(w) != 0 else HasRwx(w))
  }

  ghost predicate EntriesOk(mem: Memory, owner: map<nat, Use>)
  {
    forall p, i :: p in owner && owner[p].Table? && 0 < p < |mem| && 0 <= i < NPTE ==> EntryOk(mem[p][i], Depth(owner[p].path))
  }

  ghost predicate TreesOk(mem: Memory, owner: map<nat, Use>, h: Hole)
  {
    Recorded(mem, owner, h) && Placed(mem, owner, h) && EntriesOk(mem, owner)
  }

  // ---------------------------------------------------------------- frames

  /** mem' has the tables that mem has. */
  ghost predicate SameTables(mem: Memory, mem': Memory, owner: map<nat, Use>)
  {
    |mem'| == |mem| && forall p :: p in owner && owner[p].Table? && p < |mem| ==> mem'[p] == mem[p]
  }

  lemma {:induction false} NodeFrame(mem: Memory, mem': Memory, owner: map<nat, Use>, h: Hole, r: nat, q: Path)
    requires Recorded(mem, owner, h) && SameTables(mem, mem', owner) && IsRoot(owner, r) && Depth(q) <= 2 && !Out(h, r, q)
    ensures NodeAt(mem', r, q) == NodeAt(mem, r, q)
    ensures forall i :: Word(mem', r, q, i) == Word(mem, r, q, i)
    decreases q
  {
    if q.Step? {
      NodeFrame(mem, mem', owner, h, r, q.up);
    }
    assert NodeAt(mem, r, q) != 0 ==> owner[NodeAt(mem, r, q)] == Table(r, q);
  }

  lemma {:induction false} AllNodesFrame(mem: Memory, mem': Memory, owner: map<nat, Use>, h: Hole)
    requires Recorded(mem, owner, h) && SameTables(mem, mem', owner)
    ensures forall r, q :: IsRoot(owner, r) && Depth(q) <= 2 && !Out(h, r, q) ==> NodeAt(mem', r, q) == NodeAt(mem, r, q)
    ensures forall r, v :: IsRoot(owner, r) && !Out(h, r, TablePath(v)) ==> Pte(mem', r, v) == Pte(mem, r, v)
  {
    forall r, q | IsRoot(owner, r) && Depth(q) <= 2 && !Out(h, r, q)
      ensures NodeAt(mem', r, q) == NodeAt(mem, r, q)
    {
      NodeFrame(mem, mem', owner, h, r, q);
    }
    forall r, v | IsRoot(owner, r) && !Out(h, r, TablePath(v))
      ensures Pte(mem', r, v) == Pte(mem, r, v)
    {
      NodeFrame(mem, mem', owner, h, r, TablePath(v));
    }
  }

  /** Writing pages that are not tables, and changing what those are used for, keeps the trees. */
  lemma {:induction false} TreesFrame(mem: Memory, mem': Memory, owner: map<nat, Use>, owner': map<nat, Use>, h: Hole)
    requires TreesOk(mem, owner, h) && SameTables(mem, mem', owner)
    requires forall p :: p in owner && owner[p].Table? ==> p in owner' && owner'[p] == owner[p]
    requires forall p :: p in owner' && owner'[p].Table? ==> p in owner && owner'[p] == owner[p]
    requires forall p :: p in owner' ==> 0 < p < |mem|
    requires forall p :: p in owner' && owner'[p].Leaf? ==> p in owner && owner'[p] == owner[p]
    ensures TreesOk(mem', owner', h)
  {
    hide NodeAt, Pte, Out;
    AllNodesFrame(mem, mem', owner, h);
    assert forall r :: IsRoot(owner', r) == IsRoot(owner, r);
    assert Recorded(mem', owner', h);
    assert EntriesOk(mem', owner');
  }

  // ---------------------------------------------------------------- writing an entry

  function SetEntry(mem: Memory, n: nat, i: nat, w: nat): (r: Memory)
    requires n < |mem| && i < NPTE
    ensures |r| == |mem|
  {
    mem[n := mem[n][i := w]]
  }

  function ZeroPage(): (p: Page)
  {
    seq(NPTE, _ => 0)
  }

  /** The table at a path is recorded, once. */
  lemma {:induction false} TheTable(mem: Memory, owner: map<nat, Use>, h: Hole, r: nat, q: Path)
    requires TreesOk(mem, owner, h) && IsRoot(owner, r) && Depth(q) <= 2 && !Out(h, r, q) && NodeAt(mem, r, q) != 0
    ensures 0 < NodeAt(mem, r, q) < |mem| && NodeAt(mem, r, q) in owner && owner[NodeAt(mem, r, q)] == Table(r, q)
  {
    hide NodeAt;
  }

  /** Hanging a zeroed page into an empty entry of an upper table adds one table and nothing else. */
  lemma {:induction false} AttachNode(mem: Memory, owner: map<nat, Use>, r: nat, up: Path, i: nat, c: nat, r': nat, q: Path)
    requires TreesOk(mem, owner, NoHole) && IsRoot(owner, r) && Depth(up) < 2 && i < NPTE && 0 < NodeAt(mem, r, up) < |mem|
    requires !Present(Word(mem, r, up, i)) && c in owner && owner[c] == Loose && 0 < c < |mem| && mem[c] == ZeroPage()
    requires IsRoot(owner, r') && Depth(q) <= 2
    ensures
      var mem' := SetEntry(mem, NodeAt(mem, r, up), i, MakePte(c, 1));
      && NodeAt(mem', r', q) == (if r' == r && q == Step(up, i) then c else NodeAt(mem, r', q))
      && (Depth(q) == 2 ==> forall j :: Word(mem', r', q, j) == Word(mem, r', q, j))
    decreases q
  {
    hide Placed, EntriesOk;
    assert owner[NodeAt(mem, r, up)] == Table(r, up);
    if q.Step? {
      AttachNode(mem, owner, r, up, i, c, r', q.up);
      assert NodeAt(mem, r', q.up) != 0 ==> owner[NodeAt(mem, r', q.up)] == Table(r', q.up);
    }
    assert NodeAt(mem, r', q) != 0 ==> owner[NodeAt(mem, r', q)] == Table(r', q);
  }

  lemma {:induction false} AttachTable(mem: Memory, owner: map<nat, Use>, r: nat, up: Path, i: nat, c: nat)
    requires TreesOk(mem, owner, NoHole) && IsRoot(owner, r) && Depth(up) < 2 && i < NPTE && 0 < NodeAt(mem, r, up) < |mem|
    requires !Present(Word(mem, r, up, i)) && c in owner && owner[c] == Loose && 0 < c < |mem| && mem[c] == ZeroPage()
    ensures
      var mem', owner' := SetEntry(mem, NodeAt(mem, r, up), i, MakePte(c, 1)), owner[c := Table(r, Step(up, i))];
      && TreesOk(mem', owner', NoHole) && NodeAt(mem', r, Step(up, i)) == c
      && (forall r', v :: IsRoot(owner, r') ==> Pte(mem', r', v) == Pte(mem, r', v))
  {
    var n := NodeAt(mem, r, up);
    TheTable(mem, owner, NoHole, r, up);
    var mem', owner' := SetEntry(mem, n, i, MakePte(c, 1)), owner[c := Table(r, Step(up, i))];
    forall r', q | IsRoot(owner, r') && Depth(q) <= 2
      ensures NodeAt(mem', r', q) == if r' == r && q == Step(up, i) then c else NodeAt(mem, r', q)
    {
      AttachNode(mem, owner, r, up, i, c, r', q);
    }
    forall r', v | IsRoot(owner, r')
      ensures Pte(mem', r', v) == Pte(mem, r', v)
    {
      AttachNode(mem, owner, r, up, i, c, r', TablePath(v));
    }
    assert forall r' :: IsRoot(owner', r') == IsRoot(owner, r');
    hide NodeAt, Pte, Out;
    assert EntriesOk(mem', owner') by {
      hide Recorded, Placed;
      forall p, j | p in owner' && owner'[p].Table? && 0 < p < |mem| && 0 <= j < NPTE
        ensures EntryOk(mem'[p][j], Depth(owner'[p].path))
      {
      }
    }
    hide EntriesOk, SetEntry;
    assert Recorded(mem', owner', NoHole);
    assert Placed(mem', owner', NoHole);
  }

  /** Writing a leaf entry changes the meaning of that one virtual page. */
  lemma {:induction false} LeafNode(mem: Memory, owner: map<nat, Use>, r: nat, v: nat, w: nat, r': nat, q: Path)
    requires TreesOk(mem, owner, NoHole) && IsRoot(owner, r) && v < NVPN && 0 < NodeAt(mem, r, TablePath(v)) < |mem|
    requires IsRoot(owner, r') && Depth(q) <= 2
    ensures
      var mem' := SetEntry(mem, NodeAt(mem, r, TablePath(v)), Px0(v), w);
      && NodeAt(mem', r', q) == NodeAt(mem, r', q)
      && forall j :: Word(mem', r', q, j) == if r' == r && q == TablePath(v) && j == Px0(v) then w else Word(mem, r', q, j)
    decreases q
  {
    hide Placed, EntriesOk, TablePath, Px0;
    assert owner[NodeAt(mem, r, TablePath(v))] == Table(r, TablePath(v));
    if q.Step? {
      LeafNode(mem, owner, r, v, w, r', q.up);
      assert NodeAt(mem, r', q.up) != 0 ==> owner[NodeAt(mem, r', q.up)] == Table(r', q.up);
    }
    assert NodeAt(mem, r', q) != 0 ==> owner[NodeAt(mem, r', q)] == Table(r', q);
  }

  lemma {:induction false} SetLeaf(mem: Memory, owner: map<nat, Use>, r: nat, v: nat, w: nat)
    requires TreesOk(mem, owner, NoHole) && IsRoot(owner, r) && v < NVPN && 0 < NodeAt(mem, r, TablePath(v)) < |mem|
    requires EntryOk(w, 2) && forall p :: p in owner ==> owner[p] != Leaf(r, v)
    ensures
      var mem' := SetEntry(mem, NodeAt(mem, r, TablePath(v)), Px0(v), w);
      && TreesOk(mem', owner, NoHole)
      && (forall r', u :: IsRoot(owner, r') && 0 <= u < NVPN ==> Pte(mem', r', u) == if r' == r && u == v then w else Pte(mem, r', u))
      && (forall r', q :: IsRoot(owner, r') && Depth(q) <= 2 ==> NodeAt(mem', r', q) == NodeAt(mem, r', q))
  {
    var n := NodeAt(mem, r, TablePath(v));
    TheTable(mem, owner, NoHole, r, TablePath(v));
    var mem' := SetEntry(mem, n, Px0(v), w);
    forall r', q | IsRoot(owner, r') && Depth(q) <= 2
      ensures NodeAt(mem', r', q) == NodeAt(mem, r', q)
    {
      LeafNode(mem, owner, r, v, w, r', q);
    }
    forall r', u | IsRoot(owner, r') && 0 <= u < NVPN
      ensures Pte(mem', r', u) == if r' == r && u == v then w else Pte(mem, r', u)
    {
      LeafNode(mem, owner, r, v, w, r', TablePath(u));
      if TablePath(u) == TablePath(v) && Px0(u) == Px0(v) {
        PathInjective(u, v);
      }
    }
    hide NodeAt, Pte, Out, TablePath, Px0;
    assert EntriesOk(mem', owner) by {
      hide Recorded, Placed;
      assert Depth(owner[n].path) == 2;
    }
    hide EntriesOk, SetEntry;
    assert Recorded(mem', owner, NoHole);
    assert Placed(mem', owner, NoHole);
  }

  // ---------------------------------------------------------------- freeing tables

  lemma {:induction false} NothingBelow(mem: Memory, r: nat, top: Path, q: Path)
    requires Below(q, top) && forall i :: !Present(Word(mem, r, top, i))
    ensures q != top ==> NodeAt(mem, r, q) == 0
    ensures forall i :: !Present(Word(mem, r, q, i))
    decreases q
  {
    if q != top {
      NothingBelow(mem, r, top, q.up);
      assert !Present(Word(mem, r, q.up, q.i));
    }
  }

  /** A table without valid entries may go; its own entry in the table above still names it. */
  lemma {:induction false} FreeTable(mem: Memory, owner: map<nat, Use>, r: nat, q: Path)
    requires TreesOk(mem, owner, NoHole) && IsRoot(owner, r) && Depth(q) <= 2 && NodeAt(mem, r, q) != 0
    requires forall i :: !Present(Word(mem, r, q, i))
    ensures NodeAt(mem, r, q) in owner && owner[NodeAt(mem, r, q)] == Table(r, q)
    ensures TreesOk(mem, owner[NodeAt(mem, r, q) := Loose], Hole(r, q))
  {
    var n := NodeAt(mem, r, q);
    assert owner[n] == Table(r, q);
    var owner' := owner[n := Loose];
    forall t | t in owner' && owner'[t].Table?
      ensures !Out(Hole(r, q), owner[t].root, owner[t].path) && IsRoot(owner', owner[t].root)
    {
      if owner[t].root == r && Below(owner[t].path, q) {
        NothingBelow(mem, r, q, owner[t].path);
      }
      if n == r {
        BelowRoot(owner[t].path);
      }
    }
    forall t | t in owner' && owner'[t].Leaf?
      ensures !Out(Hole(r, q), owner[t].root, TablePath(owner[t].vpn)) && IsRoot(owner', owner[t].root)
    {
      var u := TablePath(owner[t].vpn);
      if owner[t].root == r && Below(u, q) {
        NothingBelow(mem, r, q, u);
      }
      if n == r {
        BelowRoot(u);
      }
    }
    assert forall r' :: IsRoot(owner', r') ==> IsRoot(owner, r');
    hide NodeAt, Pte, TablePath, Depth;
    assert EntriesOk(mem, owner');
    assert Recorded(mem, owner', Hole(r, q));
  }

  lemma {:induction false} BelowRoot(q: Path)
    ensures Below(q, Root)
    decreases q
  {
    if q.Step? {
      BelowRoot(q.up);
    }
  }

  /** Once the entry that named the freed tables is cleared, the trees are whole again. */
  lemma {:induction false} DetachNode(mem: Memory, owner: map<nat, Use>, r: nat, up: Path, i: nat, r': nat, q: Path)
    requires TreesOk(mem, owner, Hole(r, Step(up, i))) && IsRoot(owner, r) && Depth(up) <= 2 && i < NPTE && 0 < NodeAt(mem, r, up) < |mem|
    requires IsRoot(owner, r') && Depth(q) <= 2
    ensures
      var mem' := SetEntry(mem, NodeAt(mem, r, up), i, 0);
      if Out(Hole(r, Step(up, i)), r', q) then
        NodeAt(mem', r', q) == 0 && forall j :: Word(mem', r', q, j) == 0
      else
        && NodeAt(mem', r', q) == NodeAt(mem, r', q)
        && (forall j :: Word(mem', r', q, j) == if r' == r && q == up && j == i then 0 else Word(mem, r', q, j))
    decreases q
  {
    hide Placed, EntriesOk;
    NotBelow(up, i);
    assert owner[NodeAt(mem, r, up)] == Table(r, up);
    if q.Step? {
      DetachNode(mem, owner, r, up, i, r', q.up);
    }
    if !Out(Hole(r, Step(up, i)), r', q) {
      assert NodeAt(mem, r', q) != 0 ==> owner[NodeAt(mem, r', q)] == Table(r', q);
    }
  }

  lemma {:induction false} NotBelow(up: Path, i: nat)
    ensures !Below(up, Step(up, i))
  {
    DepthBelow(up, Step(up, i));
  }

  lemma {:induction false} DepthBelow(q: Path, top: Path)
    ensures Below(q, top) ==> Depth(q) >= Depth(top)
    decreases q
  {
    if q.Step? {
      DepthBelow(q.up, top);
    }
  }

  lemma {:induction false} Detach(mem: Memory, owner: map<nat, Use>, r: nat, up: Path, i: nat)
    requires TreesOk(mem, owner, Hole(r, Step(up, i))) && IsRoot(owner, r) && Depth(up) < 2 && i < NPTE && 0 < NodeAt(mem, r, up) < |mem|
    ensures
      var mem' := SetEntry(mem, NodeAt(mem, r, up), i, 0);
      && TreesOk(mem', owner, NoHole) && NodeAt(mem', r, up) == NodeAt(mem, r, up)
      && (forall q, j :: Depth(q) <= 2 && Present(Word(mem', r, q, j)) ==> !Below(q, Step(up, i)) && Word(mem', r, q, j) == Word(mem, r, q, j))
      && (forall q, j :: Depth(q) == 2 && !Below(q, Step(up, i)) ==> Word(mem', r, q, j) == Word(mem, r, q, j))
  {
    var n := NodeAt(mem, r, up);
    NotBelow(up, i);
    TheTable(mem, owner, Hole(r, Step(up, i)), r, up);
    var mem' := SetEntry(mem, n, i, 0);
    forall r', q | IsRoot(owner, r') && Depth(q) <= 2
      ensures NodeAt(mem', r', q) == if Out(Hole(r, Step(up, i)), r', q) then 0 else NodeAt(mem, r', q)
    {
      DetachNode(mem, owner, r, up, i, r', q);
    }
    forall q, j | Depth(q) <= 2
      ensures Present(Word(mem', r, q, j)) ==> !Below(q, Step(up, i)) && Word(mem', r, q, j) == Word(mem, r, q, j)
      ensures Depth(q) == 2 && !Below(q, Step(up, i)) ==> Word(mem', r, q, j) == Word(mem, r, q, j)
    {
      DetachNode(mem, owner, r, up, i, r, q);
    }
    forall r', v | IsRoot(owner, r') && !Out(Hole(r, Step(up, i)), r', TablePath(v))
      ensures Pte(mem', r', v) == Pte(mem, r', v)
    {
      assert Depth(TablePath(v)) == 2;
      DetachNode(mem, owner, r, up, i, r', TablePath(v));
    }
    hide NodeAt, Pte, TablePath, Px0;
    assert EntriesOk(mem', owner) by {
      hide Recorded, Placed;
    }
    hide EntriesOk, SetEntry;
    assert Recorded(mem', owner, NoHole);
    assert Placed(mem', owner, NoHole);
  }
}

/**
  The buffer cache: NBUF buffers on a circular doubly linked list, most recently released first.
  Each public operation is one atomic section under the cache lock. What callers see is a map
  from the blocks in use to their contents and reference counts (Mem), over the disk; unused
  buffers are clean copies that recycling may discard.
 */
module BufferCache {
  import opened Blocks

  const HEAD := NBUF
  const ROOTDEV := 1

  datatype Buf = Buf(dev: nat, blockno: nat, valid: bool, refcnt: nat, data: Block)

  datatype Entry = Entry(data: Block, refs: nat)

  // ---------------------------------------------------------------- the linked list

  /** The k-th node met when walking next from the list head; the walk ends at the head again. */
  function Node(order: seq<nat>, k: nat): (n: nat)
    requires k <= |order| + 1
  {
    if k == 0 || k == |order| + 1 then HEAD else order[k - 1]
  }

  ghost predicate Distinct(order: seq<nat>)
  {
    && (forall k :: 0 <= k < |order| ==> order[k] < NBUF)
    && (forall j, k :: 0 <= j < k < |order| ==> order[j] != order[k])
  }

  /** next and prev link exactly the buffers of order, in that order and in its reverse. */
  ghost predicate Ring(next: seq<nat>, prev: seq<nat>, order: seq<nat>)
  {
    && |next| == |prev| == NBUF + 1
    && Distinct(order)
    && (forall k :: 0 <= k <= |order| ==> next[Node(order, k)] == Node(order, k + 1))
    && (forall k :: 1 <= k <= |order| + 1 ==> prev[Node(order, k)] == Node(order, k - 1))
  }

  function Without(order: seq<nat>, k: nat): (r: seq<nat>)
    requires k < |order|
  {
    order[..k] + order[k + 1..]
  }

  lemma {:induction false} DistinctWithout(order: seq<nat>, k: nat)
    requires Distinct(order) && k < |order|
    ensures Distinct(Without(order, k)) && order[k] !in Without(order, k)
  {
  }

  lemma {:induction false} UnlinkNext(next: seq<nat>, prev: seq<nat>, order: seq<nat>, k: nat, j: nat)
    requires Ring(next, prev, order)
    requires k < |order| && j < |order|
    ensures prev[order[k]] <= NBUF
    ensures
      var r := Without(order, k);
      next[prev[order[k]] := next[order[k]]][Node(r, j)] == Node(r, j + 1)
  {
    var b := order[k];
    var r := Without(order, k);
    assert Node(order, k + 1) == b;
    assert next[b] == Node(order, k + 2);
    assert prev[b] == Node(order, k);
    var i := if j <= k then j else j + 1;
    assert Node(r, j) == Node(order, i);
    assert next[Node(order, i)] == Node(order, i + 1);
  }

  lemma {:induction false} UnlinkPrev(next: seq<nat>, prev: seq<nat>, order: seq<nat>, k: nat, j: nat)
    requires Ring(next, prev, order)
    requires k < |order| && 1 <= j <= |order|
    ensures next[order[k]] <= NBUF
    ensures
      var r := Without(order, k);
      prev[next[order[k]] := prev[order[k]]][Node(r, j)] == Node(r, j - 1)
  {
    var b := order[k];
    var r := Without(order, k);
    assert Node(order, k + 1) == b;
    assert next[b] == Node(order, k + 2);
    assert prev[b] == Node(order, k);
    var i := if j <= k then j else j + 1;
    assert Node(r, j) == Node(order, i);
    assert prev[Node(order, i)] == Node(order, i - 1);
  }

  lemma {:induction false} RingUnlink(next: seq<nat>, prev: seq<nat>, order: seq<nat>, k: nat)
    requires Ring(next, prev, order)
    requires k < |order|
    ensures next[order[k]] <= NBUF && prev[order[k]] <= NBUF
    ensures
      var b := order[k];
      Ring(next[prev[b] := next[b]], prev[next[b] := prev[b]], Without(order, k))
  {
    DistinctWithout(order, k);
    UnlinkNext(next, prev, order, k, 0);
    UnlinkPrev(next, prev, order, k, 1);
    var b := order[k];
    var r := Without(order, k);
    var next', prev' := next[prev[b] := next[b]], prev[next[b] := prev[b]];
    forall j | 0 <= j <= |r|
      ensures next'[Node(r, j)] == Node(r, j + 1)
    {
      UnlinkNext(next, prev, order, k, j);
    }
    forall j | 1 <= j <= |r| + 1
      ensures prev'[Node(r, j)] == Node(r, j - 1)
    {
      UnlinkPrev(next, prev, order, k, j);
    }
  }

  lemma {:induction false} RingInsert(next: seq<nat>, prev: seq<nat>, order: seq<nat>, b: nat)
    requires Ring(next, prev, order)
    requires b < NBUF && b !in order
    ensures next[HEAD] <= NBUF
    ensures Ring(next[b := next[HEAD]][HEAD := b], prev[b := HEAD][next[HEAD] := b], [b] + order)
  {
    var r := [b] + order;
    assert Node(order, 0) == HEAD;
    assert next[HEAD] == Node(order, 1);
    var next', prev' := next[b := next[HEAD]][HEAD := b], prev[b := HEAD][next[HEAD] := b];
    forall j | 0 <= j <= |r|
      ensures next'[Node(r, j)] == Node(r, j + 1)
    {
      if j >= 2 {
        assert Node(r, j) == Node(order, j - 1);
        assert next[Node(order, j - 1)] == Node(order, j);
      }
    }
    forall j | 1 <= j <= |r| + 1
      ensures prev'[Node(r, j)] == Node(r, j - 1)
    {
      if j >= 3 {
        assert Node(r, j) == Node(order, j - 1);
        assert prev[Node(order, j - 1)] == Node(order, j - 2);
      }
    }
  }

  /** Every buffer is on the list. */
  ghost predicate Covers(order: seq<nat>)
  {
    forall i :: 0 <= i < NBUF ==> i in order
  }

  /** The list is sorted by the time of the last move to the front, latest first. */
  ghost predicate ByRecency(order: seq<nat>, stamp: seq<nat>)
    requires Distinct(order) && |stamp| == NBUF
  {
    forall j, k :: 0 <= j < k < |order| ==> stamp[order[j]] > stamp[order[k]]
  }

  /** The list links all NBUF buffers both ways, and is sorted by recency. */
  ghost predicate ListOk(next: seq<nat>, prev: seq<nat>, order: seq<nat>, stamp: seq<nat>, clock: nat)
  {
    && Ring(next, prev, order)
    && |order| == NBUF && Covers(order)
    && |stamp| == NBUF && ByRecency(order, stamp)
    && (forall i :: 0 <= i < NBUF ==> stamp[i] < clock)
  }

  ghost function IndexOf(order: seq<nat>, i: nat): (k: nat)
    requires i in order
    ensures k < |order| && order[k] == i
  {
    var k :| 0 <= k < |order| && order[k] == i;
    k
  }

  /** The list with buffer i moved to the front. */
  ghost function Front(order: seq<nat>, i: nat): (r: seq<nat>)
    requires i in order
  {
    [i] + Without(order, IndexOf(order, i))
  }

  lemma {:induction false} FrontCovers(order: seq<nat>, b: nat)
    requires Distinct(order) && Covers(order)
    requires b < NBUF
    ensures Distinct(Front(order, b)) && Covers(Front(order, b))
  {
    var order' := Front(order, b);
    var k := IndexOf(order, b);
    DistinctWithout(order, k);
    forall i | 0 <= i < NBUF
      ensures i in order'
    {
      var j := IndexOf(order, i);
      if j < k {
        assert order'[j + 1] == i;
      } else if j > k {
        assert order'[j] == i;
      }
    }
  }

  lemma {:induction false} FrontByRecency(order: seq<nat>, stamp: seq<nat>, b: nat, now: nat)
    requires Distinct(order) && b in order && Distinct(Front(order, b))
    requires |stamp| == NBUF && ByRecency(order, stamp) && forall i :: 0 <= i < NBUF ==> stamp[i] < now
    ensures ByRecency(Front(order, b), stamp[b := now])
  {
    var order' := Front(order, b);
    var k := IndexOf(order, b);
    forall i, j | 0 <= i < j < |order'|
      ensures stamp[b := now][order'[i]] > stamp[b := now][order'[j]]
    {
      assert order'[j] == order[if j - 1 < k then j - 1 else j];
      if i > 0 {
        assert order'[i] == order[if i - 1 < k then i - 1 else i];
      }
    }
  }

  /** brelse's six pointer writes move b to the front of the list and leave the rest in order. */
  lemma {:induction false} PointerWritesMoveToFront(next: seq<nat>, prev: seq<nat>, order: seq<nat>, b: nat)
    requires Ring(next, prev, order) && b in order
    ensures next[b] <= NBUF && prev[b] <= NBUF && next[b] != b
    ensures
      var next1, prev1 := next[prev[b] := next[b]], prev[next[b] := prev[b]];
      next1[HEAD] <= NBUF && Ring(next1[b := next1[HEAD]][HEAD := b], prev1[b := HEAD][next1[HEAD] := b], Front(order, b))
  {
    var k := IndexOf(order, b);
    RingUnlink(next, prev, order, k);
    assert Node(order, k + 1) == b;
    assert next[b] == Node(order, k + 2);
    RingInsert(next[prev[b] := next[b]], prev[next[b] := prev[b]], Without(order, k), b);
  }

  // ---------------------------------------------------------------- what callers see

  /** At most one buffer carries a given block, and only named buffers are in use. */
  ghost predicate Separate(bufs: seq<Buf>)
  {
    && (forall i, j :: 0 <= i < j < |bufs| && bufs[i].dev != 0 && bufs[j].dev != 0 ==> bufs[i].blockno != bufs[j].blockno)
    && (forall i :: 0 <= i < |bufs| && bufs[i].refcnt > 0 ==> bufs[i].dev != 0)
  }

  /** The blocks in use, with their in-memory contents and reference counts. */
  ghost function MemOf(bufs: seq<Buf>): (m: map<nat, Entry>)
  {
    if bufs == [] then map[]
    else
      var b := bufs[|bufs| - 1];
      var m := MemOf(bufs[..|bufs| - 1]);
      if b.refcnt > 0 then m[b.blockno := Entry(b.data, b.refcnt)] else m
  }

  function CountUsed(bufs: seq<Buf>): (c: nat)
    ensures c <= |bufs|
    ensures c == |bufs| <==> forall i :: 0 <= i < |bufs| ==> bufs[i].refcnt > 0
  {
    if bufs == [] then 0
    else CountUsed(bufs[..|bufs| - 1]) + (if bufs[|bufs| - 1].refcnt > 0 then 1 else 0)
  }

  ghost predicate Holds(bufs: seq<Buf>, i: nat, b: nat)
  {
    i < |bufs| && bufs[i].refcnt > 0 && bufs[i].blockno == b
  }

  lemma {:induction false} WhereIs(bufs: seq<Buf>, b: nat) returns (i: nat)
    requires b in MemOf(bufs)
    ensures Holds(bufs, i, b)
    ensures MemOf(bufs)[b] == Entry(bufs[i].data, bufs[i].refcnt)
  {
    var last := bufs[|bufs| - 1];
    if last.refcnt > 0 && last.blockno == b {
      i := |bufs| - 1;
    } else {
      i := WhereIs(bufs[..|bufs| - 1], b);
    }
  }

  lemma {:induction false} MemHas(bufs: seq<Buf>, i: nat)
    requires Separate(bufs)
    requires i < |bufs| && bufs[i].refcnt > 0
    ensures bufs[i].blockno in MemOf(bufs)
    ensures MemOf(bufs)[bufs[i].blockno] == Entry(bufs[i].data, bufs[i].refcnt)
  {
    var last := |bufs| - 1;
    if i != last {
      assert bufs[i].blockno != bufs[last].blockno || bufs[last].refcnt == 0;
      assert Separate(bufs[..last]);
      MemHas(bufs[..last], i);
    }
  }

  /** As many blocks are in use as there are buffers with a reference. */
  lemma {:induction false} MemCount(bufs: seq<Buf>)
    requires Separate(bufs)
    ensures |MemOf(bufs)| == CountUsed(bufs)
  {
    if bufs != [] {
      var init := bufs[..|bufs| - 1];
      var b := bufs[|bufs| - 1].blockno;
      MemCount(init);
      if bufs[|bufs| - 1].refcnt > 0 && b in MemOf(init) {
        var i := WhereIs(init, b);
        assert false;
      }
    }
  }

  lemma {:induction false} MemOtherBlock(bufs: seq<Buf>, i: nat, x: Buf, b: nat)
    requires i < |bufs|
    requires Separate(bufs[i := x])
    requires b != x.blockno
    requires b in MemOf(bufs)
    requires bufs[i].refcnt > 0 ==> bufs[i].blockno == x.blockno
    ensures b in MemOf(bufs[i := x])
    ensures MemOf(bufs[i := x])[b] == MemOf(bufs)[b]
  {
    var j := WhereIs(bufs, b);
    MemHas(bufs[i := x], j);
  }

  lemma {:induction false} MemUnused(bufs: seq<Buf>, i: nat)
    requires Separate(bufs)
    requires i < |bufs| && bufs[i].refcnt == 0 && bufs[i].dev != 0
    ensures bufs[i].blockno !in MemOf(bufs)
  {
    if bufs[i].blockno in MemOf(bufs) {
      var j := WhereIs(bufs, bufs[i].blockno);
      assert false;
    }
  }

  /** Changing one buffer changes Mem at its block only. */
  lemma {:induction false} MemOfUpdate(bufs: seq<Buf>, i: nat, x: Buf)
    requires i < |bufs|
    requires Separate(bufs) && Separate(bufs[i := x])
    requires x.dev != 0
    requires bufs[i].refcnt > 0 ==> bufs[i].blockno == x.blockno
    ensures MemOf(bufs[i := x]) ==
      if x.refcnt > 0 then MemOf(bufs)[x.blockno := Entry(x.data, x.refcnt)]
      else MemOf(bufs) - {x.blockno}
  {
    var bufs' := bufs[i := x];
    var m, m' := MemOf(bufs), MemOf(bufs');
    forall b | b in m && b != x.blockno
      ensures b in m' && m'[b] == m[b]
    {
      MemOtherBlock(bufs, i, x, b);
    }
    forall b | b in m' && b != x.blockno
      ensures b in m
    {
      var j := WhereIs(bufs', b);
      MemHas(bufs, j);
    }
    if x.refcnt > 0 {
      MemHas(bufs', i);
      assert m' == m[x.blockno := Entry(x.data, x.refcnt)];
    } else {
      MemUnused(bufs', i);
      assert m' == m - {x.blockno};
    }
  }

  /** The current contents of block b: in memory if it is in use, else on disk. */
  ghost function Current(m: map<nat, Entry>, d: Disk, b: nat): (c: Block)
    requires b < |d|
  {
    if b in m then m[b].data else d[b]
  }

  ghost function Refs(m: map<nat, Entry>, b: nat): (n: nat)
  {
    if b in m then m[b].refs else 0
  }

  /** Used buffers hold data; unused buffers that hold data hold what is on disk. */
  ghost predicate Good(bufs: seq<Buf>, d: Disk)
  {
    && Separate(bufs)
    && (forall i :: 0 <= i < |bufs| ==> bufs[i].dev == 0 || bufs[i].dev == ROOTDEV)
    && (forall i :: 0 <= i < |bufs| && bufs[i].refcnt > 0 ==> bufs[i].valid && bufs[i].blockno < |d|)
    && (forall i :: 0 <= i < |bufs| && bufs[i].dev != 0 && bufs[i].refcnt == 0 && bufs[i].valid ==>
          bufs[i].blockno < |d| && bufs[i].data == d[bufs[i].blockno])
  }

  /** How bread's change of one buffer shows in Mem. */
  lemma {:induction false} ReadUpdates(bufs: seq<Buf>, d: Disk, i: nat, b: nat, x: Buf)
    requires Good(bufs, d) && i < |bufs| && b < |d|
    requires x.dev == ROOTDEV && x.blockno == b && x.valid && x.refcnt == bufs[i].refcnt + 1
    requires if bufs[i].dev == ROOTDEV && bufs[i].blockno == b && bufs[i].valid then x.data == bufs[i].data
             else bufs[i].refcnt == 0 && x.data == d[b]
    requires forall j :: 0 <= j < |bufs| && j != i ==> bufs[j].dev == 0 || bufs[j].blockno != b
    ensures Good(bufs[i := x], d)
    ensures x.data == Current(MemOf(bufs), d, b)
    ensures MemOf(bufs[i := x]) == MemOf(bufs)[b := Entry(x.data, Refs(MemOf(bufs), b) + 1)]
    ensures bufs[i].refcnt == 0 ==> |MemOf(bufs)| < |bufs|
    ensures bufs[i].refcnt > 0 ==> b in MemOf(bufs)
  {
    MemOfUpdate(bufs, i, x);
    MemCount(bufs);
    if bufs[i].refcnt > 0 {
      MemHas(bufs, i);
    } else if b in MemOf(bufs) {
      var j := WhereIs(bufs, b);
      assert false;
    }
  }

  lemma {:induction false} AllInUse(bufs: seq<Buf>, d: Disk, b: nat)
    requires Good(bufs, d) && !Carried(bufs, b)
    requires forall i :: 0 <= i < |bufs| ==> bufs[i].refcnt > 0
    ensures b !in MemOf(bufs) && |MemOf(bufs)| == |bufs|
  {
    MemCount(bufs);
    if b in MemOf(bufs) {
      var j := WhereIs(bufs, b);
      assert false;
    }
  }

  /** Changing the data or the count of a buffer in use; the last reference goes only from a clean one. */
  lemma {:induction false} UseUpdates(bufs: seq<Buf>, d: Disk, i: nat, x: Buf)
    requires Good(bufs, d) && i < |bufs| && bufs[i].refcnt > 0
    requires x.dev == bufs[i].dev && x.blockno == bufs[i].blockno && x.valid
    requires x.refcnt == 0 ==> x.data == d[x.blockno]
    ensures Good(bufs[i := x], d)
    ensures MemOf(bufs)[x.blockno := Entry(bufs[i].data, bufs[i].refcnt)] == MemOf(bufs)
    ensures MemOf(bufs[i := x]) ==
      if x.refcnt > 0 then MemOf(bufs)[x.blockno := Entry(x.data, x.refcnt)] else MemOf(bufs) - {x.blockno}
  {
    MemHas(bufs, i);
    MemOfUpdate(bufs, i, x);
  }

  ghost function Released(bufs: seq<Buf>, i: nat): (r: seq<Buf>)
    requires i < |bufs| && bufs[i].refcnt > 0
  {
    bufs[i := bufs[i].(refcnt := bufs[i].refcnt - 1)]
  }

  ghost function Dropped(m: map<nat, Entry>, b: nat): (r: map<nat, Entry>)
    requires b in m && m[b].refs > 0
  {
    if m[b].refs == 1 then m - {b} else m[b := m[b].(refs := m[b].refs - 1)]
  }

  lemma {:induction false} ReleaseUpdates(bufs: seq<Buf>, d: Disk, i: nat)
    requires Good(bufs, d) && i < |bufs| && bufs[i].refcnt > 0
    requires bufs[i].refcnt == 1 ==> bufs[i].data == d[bufs[i].blockno]
    ensures Good(Released(bufs, i), d)
    ensures bufs[i].blockno in MemOf(bufs) && MemOf(bufs)[bufs[i].blockno].refs == bufs[i].refcnt
    ensures MemOf(Released(bufs, i)) == Dropped(MemOf(bufs), bufs[i].blockno)
    ensures Keeps(bufs, Released(bufs, i), bufs[i].blockno)
  {
    UseUpdates(bufs, d, i, bufs[i].(refcnt := bufs[i].refcnt - 1));
  }

  ghost predicate Carried(bufs: seq<Buf>, b: nat)
  {
    exists i :: 0 <= i < |bufs| && bufs[i].dev == ROOTDEV && bufs[i].blockno == b
  }

  /** Buffers held for blocks other than b are still held for them. */
  ghost predicate Keeps(bufs: seq<Buf>, bufs': seq<Buf>, b: nat)
  {
    forall j: nat, c: nat :: c != b && Holds(bufs, j, c) ==> Holds(bufs', j, c)
  }

  lemma {:induction false} SameKeeps(bufs: seq<Buf>, b: nat)
    ensures Keeps(bufs, bufs, b)
  {
  }

  /** bget chose buffer i for block b, a hit or a recycled unused buffer, and left the cache as bufs'. */
  ghost predicate Got(bufs: seq<Buf>, i: nat, b: nat, bufs': seq<Buf>)
  {
    && i < |bufs|
    && if Carried(bufs, b) then
         bufs[i].dev == ROOTDEV && bufs[i].blockno == b && bufs' == bufs[i := bufs[i].(refcnt := bufs[i].refcnt + 1)]
       else
         bufs[i].refcnt == 0 && bufs' == bufs[i := Buf(ROOTDEV, b, false, 1, bufs[i].data)]
  }

  ghost function Filled(bufs: seq<Buf>, d: Disk, i: nat, b: nat): (r: seq<Buf>)
    requires i < |bufs| && b < |d|
  {
    if bufs[i].valid then bufs else bufs[i := bufs[i].(valid := true, data := d[b])]
  }

  lemma {:induction false} ReadAfterGet(bufs: seq<Buf>, d: Disk, i: nat, b: nat, bufs': seq<Buf>)
    requires Good(bufs, d) && b < |d| && Got(bufs, i, b, bufs')
    ensures
      var r := Filled(bufs', d, i, b);
      var m := MemOf(bufs);
      && Good(r, d)
      && Holds(r, i, b) && r[i].data == Current(m, d, b)
      && MemOf(r) == m[b := Entry(Current(m, d, b), Refs(m, b) + 1)]
      && (b in m || |m| < |bufs|)
      && |r| == |bufs| && Keeps(bufs, r, b)
  {
    var r := Filled(bufs', d, i, b);
    ReadUpdates(bufs, d, i, b, r[i]);
    assert r == bufs[i := r[i]];
  }

  // ---------------------------------------------------------------- the cache object

  class Cache {
    var disk: Disk
    ghost var trace: seq<Write>   // every block write so far, in order
    var bufs: seq<Buf>
    var next: seq<nat>
    var prev: seq<nat>
    ghost var order: seq<nat>     // the list, head.next first
    ghost var stamp: seq<nat>     // when each buffer last moved to the front
    ghost var clock: nat

    ghost predicate Linked()
      reads this`next, this`prev, this`order, this`stamp, this`clock
    {
      ListOk(next, prev, order, stamp, clock)
    }

    ghost predicate Valid()
      reads this
    {
      && |bufs| == NBUF
      && Linked()
      && Good(bufs, disk)
    }

    ghost function Mem(): (m: map<nat, Entry>)
      reads this`bufs
    {
      MemOf(bufs)
    }

    ghost function Contents(b: nat): (c: Block)
      requires b < |disk|
      reads this
    {
      Current(Mem(), disk, b)
    }

    /** binit: every buffer is pushed on the front of an empty list. */
    constructor (d: Disk)
      ensures Valid()
      ensures disk == d && trace == [] && Mem() == map[]
      ensures forall i :: 0 <= i < NBUF ==> bufs[i].dev == 0
    {
      disk := d;
      trace := [];
      bufs := seq(NBUF, _ => Buf(0, 0, false, 0, ZeroBlock()));
      next := seq(NBUF + 1, _ => HEAD);
      prev := seq(NBUF + 1, _ => HEAD);
      order := [];
      stamp := seq(NBUF, (i: nat) => i);
      clock := NBUF;
      new;
      var b := 0;
      while b < NBUF
        invariant 0 <= b <= NBUF
        invariant Ring(next, prev, order)
        invariant |order| == b
        invariant forall k :: 0 <= k < b ==> order[k] == b - 1 - k
        invariant disk == d && trace == []
        invariant bufs == seq(NBUF, _ => Buf(0, 0, false, 0, ZeroBlock()))
        invariant stamp == seq(NBUF, (i: nat) => i) && clock == NBUF
      {
        RingInsert(next, prev, order, b);
        PushFront(b);
        order := [b] + order;
        b := b + 1;
      }
      assert Covers(order) by {
        forall i | 0 <= i < NBUF
          ensures i in order
        {
          assert order[NBUF - 1 - i] == i;
        }
      }
      if MemOf(bufs) != map[] {
        var k :| k in MemOf(bufs);
        var i := WhereIs(bufs, k);
        assert false;
      }
    }

    /** The four pointer writes that put b between the head and its successor. */
    method PushFront(b: nat)
      requires |next| == |prev| == NBUF + 1
      requires b < NBUF && next[HEAD] <= NBUF
      modifies this`next, this`prev
      ensures next == old(next[b := next[HEAD]][HEAD := b])
      ensures prev == old(prev[b := HEAD][next[HEAD] := b])
    {
      next := next[b := next[HEAD]];
      prev := prev[b := HEAD];
      prev := prev[next[HEAD] := b];
      next := next[HEAD := b];
    }
  
    /**
      bget: a hit adds a reference; a miss takes the unused buffer whose last move to the front
      is oldest; with neither, the kernel panics (None).
     */
    method Bget(b: nat) returns (r: Option<nat>)
      requires Valid() && b < |disk|
      modifies this`bufs
      ensures |bufs| == NBUF
      ensures r.None? ==> bufs == old(bufs) && !Carried(bufs, b) && forall i :: 0 <= i < NBUF ==> bufs[i].refcnt > 0
      ensures r.Some? ==> r.value < NBUF && Got(old(bufs), r.value, b, bufs)
      ensures r.Some? && !Carried(old(bufs), b) ==>
        forall j :: 0 <= j < NBUF && old(bufs[j].refcnt == 0) ==> stamp[r.value] <= stamp[j]
    {
      var i := next[HEAD];
      ghost var k := 1;
      assert Node(order, 0) == HEAD;
      while i != HEAD
        invariant 1 <= k <= NBUF + 1 && i == Node(order, k)
        invariant forall j :: 0 <= j < k - 1 ==> !(bufs[order[j]].dev == ROOTDEV && bufs[order[j]].blockno == b)
        decreases NBUF + 1 - k
      {
        if bufs[i].dev == ROOTDEV && bufs[i].blockno == b {
          bufs := bufs[i := bufs[i].(refcnt := bufs[i].refcnt + 1)];
          return Some(i);
        }
        assert next[Node(order, k)] == Node(order, k + 1);
        i := next[i];
        k := k + 1;
      }
      forall j | 0 <= j < NBUF
        ensures !(bufs[j].dev == ROOTDEV && bufs[j].blockno == b)
      {
        assert j in order;
      }

      i := prev[HEAD];
      k := NBUF;
      assert Node(order, NBUF + 1) == HEAD;
      while i != HEAD
        invariant 0 <= k <= NBUF && i == Node(order, k)
        invariant forall j :: k <= j < NBUF ==> bufs[order[j]].refcnt > 0
        decreases k
      {
        if bufs[i].refcnt == 0 {
          OldestUnused(k - 1);
          bufs := bufs[i := Buf(ROOTDEV, b, false, 1, bufs[i].data)];
          return Some(i);
        }
        assert prev[Node(order, k)] == Node(order, k - 1);
        i := prev[i];
        k := k - 1;
      }
      forall j | 0 <= j < NBUF
        ensures bufs[j].refcnt > 0
      {
        assert j in order;
      }
      return None;
    }

    /** On a list sorted by recency, an unused buffer with only used ones behind it is the oldest unused one. */
    lemma {:induction false} OldestUnused(k: nat)
      requires |bufs| == NBUF && Linked()
      requires k < NBUF && bufs[order[k]].refcnt == 0
      requires forall j :: k < j < NBUF ==> bufs[order[j]].refcnt > 0
      ensures forall i :: 0 <= i < NBUF && bufs[i].refcnt == 0 ==> stamp[order[k]] <= stamp[i]
    {
      forall i | 0 <= i < NBUF && bufs[i].refcnt == 0
        ensures stamp[order[k]] <= stamp[i]
      {
        assert i in order;
      }
    }

    /** What buffer i holds is what Mem records for its block. */
    lemma {:induction false} Held(i: nat, b: nat)
      requires Valid() && Holds(bufs, i, b)
      ensures b in Mem() && Mem()[b] == Entry(bufs[i].data, bufs[i].refcnt) && b < |disk|
    {
      MemHas(bufs, i);
    }

    /**
      bread: succeeds unless every buffer is in use by other blocks; the contents returned are
      the current ones, and one reference was added.
     */
    method Bread(b: nat) returns (r: Option<nat>)
      requires Valid() && b < |disk|
      modifies this`bufs
      ensures Valid()
      ensures r.None? <==> b !in old(Mem()) && |old(Mem())| == NBUF
      ensures r.None? ==> Mem() == old(Mem())
      ensures r.Some? ==> Holds(bufs, r.value, b)
      ensures r.Some? ==> Mem() == old(Mem())[b := Entry(old(Contents(b)), Refs(old(Mem()), b) + 1)]
      ensures Keeps(old(bufs), bufs, b)
    {
      hide Good, Got, Keeps, ListOk, MemOf, Filled, Carried;
      ghost var was := bufs;
      r := Bget(b);
      if r.None? {
        AllInUse(bufs, disk, b);
        SameKeeps(bufs, b);
        return;
      }
      ReadAfterGet(was, disk, r.value, b, bufs);
      Fill(r.value, b);
    }

    /** bread's disk read into a buffer that does not hold its block yet. */
    method Fill(i: nat, b: nat)
      requires i < |bufs| && b < |disk|
      modifies this`bufs
      ensures bufs == Filled(old(bufs), disk, i, b)
    {
      if !bufs[i].valid {
        bufs := bufs[i := bufs[i].(valid := true, data := disk[b])];
      }
    }

    /** A holder reads the buffer's data. */
    method GetData(i: nat, ghost b: nat) returns (data: Block)
      requires Valid() && Holds(bufs, i, b)
      ensures b in Mem() && data == Mem()[b].data
    {
      Held(i, b);
      data := bufs[i].data;
    }

    /** A holder changes the buffer's data. */
    method SetData(i: nat, ghost b: nat, data: Block)
      requires Valid() && Holds(bufs, i, b)
      modifies this`bufs
      ensures Valid() && Holds(bufs, i, b)
      ensures b in old(Mem()) && Mem() == old(Mem())[b := old(Mem()[b]).(data := data)]
      ensures Keeps(old(bufs), bufs, b)
    {
      Held(i, b);
      UseUpdates(bufs, disk, i, bufs[i].(data := data));
      bufs := bufs[i := bufs[i].(data := data)];
    }

    /** bwrite: one block write reaches the disk. */
    method Bwrite(i: nat, ghost b: nat)
      requires Valid() && Holds(bufs, i, b)
      modifies this`disk, this`trace
      ensures Valid()
      ensures b in Mem() && b < |old(disk)|
      ensures trace == old(trace) + [Write(b, Mem()[b].data)]
      ensures disk == old(disk)[b := Mem()[b].data]
    {
      Held(i, b);
      disk := disk[bufs[i].blockno := bufs[i].data];
      trace := trace + [Write(bufs[i].blockno, bufs[i].data)];
    }

    /** brelse's list work: unlink the buffer, then push it on the front. */
    method ToFront(i: nat)
      requires Linked() && i < NBUF
      modifies this`next, this`prev, this`order, this`stamp, this`clock
      ensures Linked()
      ensures i in old(order) && order == Front(old(order), i)
      ensures stamp == old(stamp)[i := old(clock)] && clock == old(clock) + 1
    {
      assert i in order;
      PointerWritesMoveToFront(next, prev, order, i);
      FrontCovers(order, i);
      FrontByRecency(order, stamp, i, clock);
      prev := prev[next[i] := prev[i]];
      next := next[prev[i] := next[i]];
      PushFront(i);
      order := Front(old(order), i);
      stamp := stamp[i := clock];
      clock := clock + 1;
    }

    /**
      brelse: drops one reference. Dropping the last one needs a clean buffer (callers log_write,
      and so pin, what they modified), and moves it to the front of the list.
     */
    method Brelse(i: nat, ghost b: nat)
      requires Valid() && Holds(bufs, i, b)
      requires b in Mem() && b < |disk| && (Mem()[b].refs == 1 ==> Mem()[b].data == disk[b])
      modifies this`bufs, this`next, this`prev, this`order, this`stamp, this`clock
      ensures Valid()
      ensures old(Mem()[b].refs) > 0 && Mem() == Dropped(old(Mem()), b)
      ensures Keeps(old(bufs), bufs, b)
      ensures if bufs[i].refcnt > 0 then order == old(order) && stamp == old(stamp)
              else i in old(order) && order == Front(old(order), i) && stamp == old(stamp)[i := old(clock)]
    {
      hide Good, Keeps, ListOk, MemOf;
      Held(i, b);
      ReleaseUpdates(bufs, disk, i);
      bufs := bufs[i := bufs[i].(refcnt := bufs[i].refcnt - 1)];
      if bufs[i].refcnt == 0 {
        ToFront(i);
      }
    }

    method Bpin(i: nat, ghost b: nat)
      requires Valid() && Holds(bufs, i, b)
      modifies this`bufs
      ensures Valid() && Holds(bufs, i, b)
      ensures b in old(Mem()) && Mem() == old(Mem())[b := old(Mem()[b]).(refs := old(Mem()[b].refs) + 1)]
      ensures Keeps(old(bufs), bufs, b)
    {
      Held(i, b);
      UseUpdates(bufs, disk, i, bufs[i].(refcnt := bufs[i].refcnt + 1));
      bufs := bufs[i := bufs[i].(refcnt := bufs[i].refcnt + 1)];
    }

    /** bunpin, called by a holder as install_trans does, so that a reference remains. */
    method Bunpin(i: nat, ghost b: nat)
      requires Valid() && Holds(bufs, i, b)
      requires b in Mem() && Mem()[b].refs > 1
      modifies this`bufs
      ensures Valid() && Holds(bufs, i, b)
      ensures Mem() == old(Mem())[b := old(Mem()[b]).(refs := old(Mem()[b].refs) - 1)]
      ensures Keeps(old(bufs), bufs, b)
    {
      Held(i, b);
      UseUpdates(bufs, disk, i, bufs[i].(refcnt := bufs[i].refcnt - 1));
      bufs := bufs[i := bufs[i].(refcnt := bufs[i].refcnt - 1)];
    }
  }
}

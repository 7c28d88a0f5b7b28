/**
  The logging layer over the buffer cache: log_write records and pins a block, commit copies the
  recorded blocks to the log, writes the header, installs the blocks at home and clears the
  header, and recovery replays a committed transaction. Every operation reports whether the
  kernel panicked; when it did not, what it wrote is what CrashRecovery says.
 */
module Log {
  import opened Blocks
  import opened BufferCache
  import opened CrashRecovery

  /** m with one reference dropped from each of the first k blocks. */
  ghost function DropAll(m: map<nat, Entry>, blocks: seq<nat>, k: nat): (r: map<nat, Entry>)
    requires k <= |blocks|
    requires forall i :: 0 <= i < |blocks| ==> blocks[i] in m && m[blocks[i]].refs > 0
    requires forall i, j :: 0 <= i < j < |blocks| ==> blocks[i] != blocks[j]
    ensures forall i :: k <= i < |blocks| ==> blocks[i] in r && r[blocks[i]] == m[blocks[i]]
    ensures r.Keys <= m.Keys
    ensures |r| <= |m|
  {
    if k == 0 then m
    else
      var p := DropAll(m, blocks, k - 1);
      var r := Dropped(p, blocks[k - 1]);
      assert |r| <= |p| by {
        assert r.Keys <= p.Keys;
        if r.Keys != p.Keys {
          assert r.Keys == p.Keys - {blocks[k - 1]};
        }
      }
      r
  }

  /** The in-memory contents of the given blocks. */
  ghost function DataOf(m: map<nat, Entry>, blocks: seq<nat>): (data: seq<Block>)
    requires forall i :: 0 <= i < |blocks| ==> blocks[i] in m
  {
    seq(|blocks|, i requires 0 <= i < |blocks| => m[blocks[i]].data)
  }

  class Log {
    const cache: Cache
    const start: nat
    const size: nat
    var n: nat
    var block: seq<nat>
    var outstanding: nat
    var committing: bool

    /** Nobody holds the header block or a log block. */
    ghost predicate Quiet()
      reads cache
    {
      forall b :: b in cache.Mem() ==> IsHome(start, b)
    }

    ghost predicate Valid()
      reads this, cache
    {
      && cache.Valid()
      && |block| == LOGSIZE && n <= LOGSIZE
      && size > LOGSIZE
      && Homes(cache.disk, start, block[..n])
      && (forall i :: 0 <= i < n ==> block[i] in cache.Mem() && cache.Mem()[block[i]].refs > 0)
    }

    /** initlog: record where the log is, then recover. */
    constructor (c: Cache, logstart: nat, nlog: nat)
      requires c.Valid() && c.Mem() == map[] && Recoverable(c.disk, logstart) && nlog > LOGSIZE
      modifies c
      ensures Valid() && Quiet() && cache == c && start == logstart && size == nlog
      ensures n == 0 && outstanding == 0 && !committing && c.Mem() == map[]
      ensures Fits(old(c.disk), RecoverWrites(old(c.disk), logstart))
      ensures c.trace == old(c.trace) + RecoverWrites(old(c.disk), logstart)
      ensures c.disk == Apply(old(c.disk), RecoverWrites(old(c.disk), logstart))
    {
      cache := c;
      start := logstart;
      size := nlog;
      n := 0;
      block := seq(LOGSIZE, _ => 0);
      outstanding := 0;
      committing := false;
      new;
      Recover();
    }

    /** recover_from_log, at boot: replay what the header names, then clear it. */
    method Recover()
      requires cache.Valid() && cache.Mem() == map[] && Recoverable(cache.disk, start)
      requires |block| == LOGSIZE
      modifies this`n, this`block, cache
      ensures cache.Valid() && cache.Mem() == map[] && n == 0 && |block| == LOGSIZE
      ensures Fits(old(cache.disk), RecoverWrites(old(cache.disk), start))
      ensures cache.trace == old(cache.trace) + RecoverWrites(old(cache.disk), start)
      ensures cache.disk == Apply(old(cache.disk), RecoverWrites(old(cache.disk), start))
    {
      hide Cache.Valid, MemOf, Holds;
      ghost var d := cache.disk;
      ReadHead();
      ghost var homes := block[..n];
      ghost var data := Logged(d, start, n);
      InstallTrans(true, data);
      ghost var d1 := cache.disk;
      n := 0;
      var ok := WriteHead();
      FullRecovery(d, start);
      assert RecoverWrites(d, start)[..|homes|] == HomeWrites(homes, data);
      ApplyAllHomeWrites(d, start, homes, data);
      assert start !in homes;
      assert d1[start] == d[start];
      assert block[..0] == [];
    }

    /** read_head: the header's count and entries become the in-memory ones. */
    method ReadHead()
      requires cache.Valid() && cache.Mem() == map[] && start < |cache.disk| && HeadOk(cache.disk[start])
      requires |block| == LOGSIZE
      modifies this`n, this`block, cache
      ensures cache.Valid() && cache.Mem() == map[] && cache.disk == old(cache.disk) && cache.trace == old(cache.trace)
      ensures |block| == LOGSIZE && n <= LOGSIZE && block[..n] == GetHead(cache.disk[start])
    {
      hide Cache.Valid, MemOf, Holds;
      var r := cache.Bread(start);
      var buf := r.value;
      var data := cache.GetData(buf, start);
      LoadHead(data);
      cache.Brelse(buf, start);
    }

    /** The copying loop of read_head. */
    method LoadHead(data: Block)
      requires HeadOk(data) && |block| == LOGSIZE
      modifies this`n, this`block
      ensures |block| == LOGSIZE && n <= LOGSIZE && block[..n] == GetHead(data)
    {
      n := Word(data, 0);
      var i := 0;
      while i < n
        invariant 0 <= i <= n == Word(data, 0) && |block| == LOGSIZE
        invariant forall j :: 0 <= j < i ==> block[j] == Word(data, j + 1)
      {
        block := block[i := Word(data, i + 1)];
        i := i + 1;
      }
    }

    /** write_head: one block write, or a panic when every buffer is in use. */
    method WriteHead() returns (ok: bool)
      requires cache.Valid() && start < |cache.disk| && start !in cache.Mem()
      requires |block| == LOGSIZE && n <= LOGSIZE && forall i :: 0 <= i < n ==> block[i] < TWO32
      modifies cache
      ensures cache.Valid() && cache.Mem() == old(cache.Mem())
      ensures ok <==> |old(cache.Mem())| < NBUF
      ensures !ok ==> cache.disk == old(cache.disk) && cache.trace == old(cache.trace)
      ensures ok ==>
        var h := PutHead(old(cache.disk[start]), block[..n]);
        cache.disk == old(cache.disk)[start := h] && cache.trace == old(cache.trace) + [Write(start, h)]
    {
      hide Cache.Valid, MemOf, Holds, PutHead;
      ghost var m := cache.Mem();
      InUseBound(cache);
      var r := cache.Bread(start);
      if r.None? {
        return false;
      }
      var hb := r.value;
      var data := cache.GetData(hb, start);
      data := FillHead(data);
      cache.SetData(hb, start, data);
      cache.Bwrite(hb, start);
      cache.Brelse(hb, start);
      assert cache.Mem() == m;
      return true;
    }

    /** The header's fields, written into the block's data. */
    method FillHead(was: Block) returns (data: Block)
      requires |block| == LOGSIZE && n <= LOGSIZE && forall i :: 0 <= i < n ==> block[i] < TWO32
      ensures data == PutHead(was, block[..n])
    {
      data := SetWord(was, 0, n);
      ghost var blocks := block[..n];
      var i := 0;
      while i < n
        invariant 0 <= i <= n
        invariant data == PutEntries(SetWord(was, 0, n), blocks, i)
      {
        data := SetWord(data, i + 1, block[i]);
        i := i + 1;
      }
    }

    /** One turn of write_log: copy a recorded block from the cache to its log block. */
    method CopyToLog(tail: nat) returns (ok: bool)
      requires Valid() && Quiet() && tail < n
      modifies cache
      ensures cache.Valid() && cache.Mem() == old(cache.Mem())
      ensures ok <==> |old(cache.Mem())| < NBUF
      ensures !ok ==> cache.disk == old(cache.disk) && cache.trace == old(cache.trace)
      ensures ok ==>
        var data := old(cache.Mem())[block[tail]].data;
        && cache.disk == old(cache.disk)[start + 1 + tail := data]
        && cache.trace == old(cache.trace) + [Write(start + 1 + tail, data)]
    {
      hide Cache.Valid, MemOf, Holds, Homes, Dropped;
      ghost var m, logged, home := cache.Mem(), start + tail + 1, block[tail];
      HomeAndLog(cache.disk, start, block[..n], tail);
      assert logged !in m;
      ghost var data, e := m[home].data, Entry(cache.disk[logged], 1);
      CopyMem(m, logged, home, data, e);
      var to, from;
      ok, to, from := FetchPair(tail, false);
      if ok {
        FillLog(to, logged, from, home);
        ReleasePair(from, home, to, logged);
      }
    }

    /** The middle of write_log: copy the cached data into the log block and write it. */
    method FillLog(to: nat, ghost logged: nat, from: nat, ghost home: nat)
      requires cache.Valid() && home != logged && home in cache.Mem() && logged in cache.Mem()
      requires Holds(cache.bufs, to, logged) && Holds(cache.bufs, from, home)
      modifies cache`bufs, cache`disk, cache`trace
      ensures cache.Valid() && Holds(cache.bufs, to, logged) && Holds(cache.bufs, from, home)
      ensures
        var m := old(cache.Mem());
        var data := m[home].data;
        && logged < |old(cache.disk)| && cache.disk == old(cache.disk)[logged := data]
        && cache.trace == old(cache.trace) + [Write(logged, data)]
        && cache.Mem() == m[logged := m[logged].(data := data)]
    {
      hide Cache.Valid, MemOf, Holds;
      var data := cache.GetData(from, home);
      cache.SetData(to, logged, data);
      cache.Bwrite(to, logged);
    }

    /** One turn of install_trans: copy a log block home; after a commit, also unpin the home block. */
    method InstallBlock(tail: nat, recovering: bool)
      requires cache.Valid() && Quiet() && |block| == LOGSIZE && tail < n <= LOGSIZE
      requires Homes(cache.disk, start, block[..n])
      requires recovering ==> cache.Mem() == map[]
      requires !recovering ==> |cache.Mem()| < NBUF && block[tail] in cache.Mem() && cache.Mem()[block[tail]].refs > 0
      requires !recovering ==> cache.Mem()[block[tail]].data == cache.disk[start + 1 + tail]
      modifies cache
      ensures cache.Valid() && Quiet()
      ensures
        var data := old(cache.disk[start + 1 + tail]);
        && cache.disk == old(cache.disk)[block[tail] := data]
        && cache.trace == old(cache.trace) + [Write(block[tail], data)]
      ensures cache.Mem() == if recovering then map[] else Dropped(old(cache.Mem()), block[tail])
    {
      hide Cache.Valid, MemOf, Holds, Homes;
      ghost var m, home, logged := cache.Mem(), block[tail], start + tail + 1;
      HomeAndLog(cache.disk, start, block[..n], tail);
      assert logged !in m;
      var ok, lbuf, dbuf := FetchPair(tail, recovering);
      CopyHome(lbuf, logged, dbuf, home, recovering);
      ghost var data := cache.disk[home];
      assert cache.Mem() == m[logged := Entry(data, 1)][home := Entry(data, if recovering then 1 else m[home].refs)];
      InstallMem(m, logged, home, data, !recovering);
      ReleasePair(lbuf, logged, dbuf, home);
    }

    /** The two brelses that end a turn of write_log or install_trans. */
    method ReleasePair(lbuf: nat, ghost logged: nat, dbuf: nat, ghost home: nat)
      requires cache.Valid() && home != logged && home in cache.Mem() && logged in cache.Mem()
      requires Holds(cache.bufs, lbuf, logged) && Holds(cache.bufs, dbuf, home)
      requires logged < |cache.disk| && home < |cache.disk|
      requires cache.Mem()[logged].refs > 0 && cache.Mem()[home].refs > 0
      requires cache.Mem()[logged].refs == 1 ==> cache.Mem()[logged].data == cache.disk[logged]
      requires cache.Mem()[home].refs == 1 ==> cache.Mem()[home].data == cache.disk[home]
      modifies cache`bufs, cache`next, cache`prev, cache`order, cache`stamp, cache`clock
      ensures cache.Valid()
      ensures cache.Mem() == Dropped(Dropped(old(cache.Mem()), logged), home)
      ensures forall c :: c in cache.Mem() ==> c in old(cache.Mem())
    {
      hide Cache.Valid, MemOf, Holds;
      cache.Brelse(lbuf, logged);
      cache.Brelse(dbuf, home);
    }

    /** The middle of install_trans: copy the data, write it home, and unpin after a commit. */
    method CopyHome(lbuf: nat, ghost logged: nat, dbuf: nat, ghost home: nat, recovering: bool)
      requires cache.Valid() && home != logged && home in cache.Mem() && logged in cache.Mem()
      requires Holds(cache.bufs, lbuf, logged) && Holds(cache.bufs, dbuf, home)
      requires !recovering ==> cache.Mem()[home].refs > 1
      modifies cache`bufs, cache`disk, cache`trace
      ensures cache.Valid() && Holds(cache.bufs, lbuf, logged) && Holds(cache.bufs, dbuf, home)
      ensures
        var m := old(cache.Mem());
        var data := m[logged].data;
        && home < |old(cache.disk)| && cache.disk == old(cache.disk)[home := data]
        && cache.trace == old(cache.trace) + [Write(home, data)]
        && cache.Mem() == m[home := Entry(data, if recovering then m[home].refs else m[home].refs - 1)]
    {
      hide Cache.Valid, MemOf, Holds;
      var data := cache.GetData(lbuf, logged);
      cache.SetData(dbuf, home, data);
      cache.Bwrite(dbuf, home);
      if !recovering {
        cache.Bunpin(dbuf, home);
      }
    }

    /** The two breads of write_log and install_trans: a log block, then its home block. */
    method FetchPair(tail: nat, recovering: bool) returns (ok: bool, lbuf: nat, dbuf: nat)
      requires cache.Valid() && |block| == LOGSIZE && tail < n <= LOGSIZE
      requires start + tail + 1 < |cache.disk| && block[tail] < |cache.disk| && block[tail] != start + tail + 1
      requires start + tail + 1 !in cache.Mem()
      requires if recovering then cache.Mem() == map[] else block[tail] in cache.Mem()
      modifies cache`bufs
      ensures cache.Valid()
      ensures ok <==> |old(cache.Mem())| < NBUF
      ensures !ok ==> cache.Mem() == old(cache.Mem())
      ensures ok ==> Holds(cache.bufs, lbuf, start + tail + 1) && Holds(cache.bufs, dbuf, block[tail])
      ensures ok ==>
        var m := old(cache.Mem());
        cache.Mem() == m[start + tail + 1 := Entry(cache.disk[start + tail + 1], 1)]
                        [block[tail] := Entry(Current(m, cache.disk, block[tail]), Refs(m, block[tail]) + 1)]
    {
      InUseBound(cache);
      hide Cache.Valid, MemOf, Holds;
      var l := cache.Bread(start + tail + 1);
      if l.None? {
        return false, 0, 0;
      }
      lbuf := l.value;
      if recovering {
        assert cache.Mem().Keys == {start + tail + 1};
      }
      var d := cache.Bread(block[tail]);
      dbuf := d.value;
      ok := true;
    }

    /** install_trans: the home writes of the transaction, in order. */
    method InstallTrans(recovering: bool, ghost data: seq<Block>)
      requires cache.Valid() && Quiet() && |block| == LOGSIZE && n <= LOGSIZE
      requires Homes(cache.disk, start, block[..n])
      requires |data| == n && forall i :: 0 <= i < n ==> data[i] == cache.disk[start + 1 + i]
      requires recovering ==> cache.Mem() == map[]
      requires !recovering ==> |cache.Mem()| < NBUF && forall i :: 0 <= i < n ==>
        block[i] in cache.Mem() && cache.Mem()[block[i]].refs > 0 && cache.Mem()[block[i]].data == data[i]
      modifies cache
      ensures cache.Valid() && Quiet()
      ensures Fits(old(cache.disk), HomeWrites(block[..n], data))
      ensures cache.disk == Apply(old(cache.disk), HomeWrites(block[..n], data))
      ensures cache.trace == old(cache.trace) + HomeWrites(block[..n], data)
      ensures if recovering then cache.Mem() == map[]
              else cache.Mem() == DropAll(old(cache.Mem()), block[..n], n)
    {
      hide Cache.Valid, MemOf, Holds, Apply, Dropped, Homes;
      ghost var d, m, homes := cache.disk, cache.Mem(), block[..n];
      HomesDistinct(d, start, homes);
      ghost var ws := HomeWrites(homes, data);
      var tail := 0;
      assert ws[..0] == [] && Apply(d, []) == d by {
        NoWrites(d);
      }
      while tail < n
        invariant 0 <= tail <= n
        invariant cache.Valid() && Quiet()
        invariant Fits(d, ws[..tail]) && cache.disk == Apply(d, ws[..tail])
        invariant forall i :: 0 <= i < n ==> cache.disk[start + 1 + i] == data[i]
        invariant cache.trace == old(cache.trace) + ws[..tail]
        invariant cache.Mem() == if recovering then map[] else DropAll(m, homes, tail)
      {
        assert homes[tail] == block[tail];
        SameHomes(d, cache.disk, start, homes);
        HomeWriteKeepsLog(cache.disk, start, homes, tail, data);
        InstallBlock(tail, recovering);
        ApplyNext(d, ws, tail);
        TakeNext(old(cache.trace), ws, tail);
        tail := tail + 1;
      }
      assert ws[..n] == ws;
    }

    /** write_log: the log writes of the transaction, in order. */
    method WriteLog() returns (ok: bool)
      requires Valid() && Quiet() && n > 0
      modifies cache
      ensures cache.Valid() && cache.Mem() == old(cache.Mem())
      ensures ok <==> |old(cache.Mem())| < NBUF
      ensures !ok ==> cache.disk == old(cache.disk) && cache.trace == old(cache.trace)
      ensures ok ==>
        var ws := LogWrites(start, DataOf(old(cache.Mem()), block[..n]));
        && Fits(old(cache.disk), ws) && cache.disk == Apply(old(cache.disk), ws)
        && cache.trace == old(cache.trace) + ws
    {
      hide Cache.Valid, MemOf, Holds, Apply, Homes;
      ghost var d, m, homes := cache.disk, cache.Mem(), block[..n];
      HomesDistinct(d, start, homes);
      ghost var ws := LogWrites(start, DataOf(m, homes));
      NoWrites(d);
      ok := true;
      var tail := 0;
      while tail < n && ok
        invariant 0 <= tail <= n
        invariant Valid() && cache.Mem() == m
        invariant tail > 0 && ok ==> |m| < NBUF
        invariant ok ==> Fits(d, ws[..tail]) && cache.disk == Apply(d, ws[..tail]) && cache.trace == old(cache.trace) + ws[..tail]
        invariant !ok ==> |m| >= NBUF && cache.disk == d && cache.trace == old(cache.trace)
        decreases n - tail, ok
      {
        ok := CopyToLog(tail);
        SameHomes(d, cache.disk, start, homes);
        if ok {
          ApplyNext(d, ws, tail);
          TakeNext(old(cache.trace), ws, tail);
          tail := tail + 1;
        }
      }
      assert ws[..n] == ws;
    }

    /**
      commit: with something logged it panics exactly when every buffer is in use, and then
      before anything was written. Otherwise it makes the block writes of CommitWrites on the
      current contents of the logged blocks, drops their pins, and leaves the log empty.
     */
    method Commit() returns (ok: bool)
      requires Valid() && Quiet()
      modifies this`n, cache
      ensures ok <==> old(n) == 0 || |old(cache.Mem())| < NBUF
      ensures !ok ==> cache.disk == old(cache.disk) && cache.trace == old(cache.trace)
      ensures ok ==> Valid() && Quiet() && n == 0
      ensures ok ==> cache.Mem() == DropAll(old(cache.Mem()), block[..old(n)], old(n))
      ensures ok ==>
        var ws := CommitWrites(old(cache.disk), start, block[..old(n)], DataOf(old(cache.Mem()), block[..old(n)]));
        && Fits(old(cache.disk), ws) && cache.disk == Apply(old(cache.disk), ws)
        && cache.trace == old(cache.trace) + ws
    {
      if n == 0 {
        return true;
      }
      hide Cache.Valid, MemOf, Apply;
      ok := CommitAll();
    }

    /** commit, with something logged. */
    method CommitAll() returns (ok: bool)
      requires Valid() && Quiet() && n > 0
      modifies this`n, cache
      ensures ok <==> |old(cache.Mem())| < NBUF
      ensures !ok ==> cache.disk == old(cache.disk) && cache.trace == old(cache.trace)
      ensures ok ==> Valid() && Quiet() && n == 0
      ensures ok ==> cache.Mem() == DropAll(old(cache.Mem()), block[..old(n)], old(n))
      ensures ok ==>
        var ws := CommitWrites(old(cache.disk), start, block[..old(n)], DataOf(old(cache.Mem()), block[..old(n)]));
        && Fits(old(cache.disk), ws) && cache.disk == Apply(old(cache.disk), ws)
        && cache.trace == old(cache.trace) + ws
    {
      ghost var d, homes := cache.disk, block[..n];
      ghost var data := DataOf(cache.Mem(), homes);
      HomesDistinct(d, start, homes);
      hide Cache.Valid, MemOf, DropAll, Apply, LogWrites, HomeWrites, CommitWrites, PutHead, DataOf, Homes;
      ghost var t, h := cache.trace, PutHead(d[start], homes);
      CommitDisks(d, start, homes, data);
      ok := CommitPoint();
      if ok {
        SameHomes(d, cache.disk, start, homes);
        InstallAndClear(data);
        Regroup(t, LogWrites(start, data), Write(start, h), HomeWrites(homes, data), Write(start, PutHead(h, [])));
      }
    }

    /** The first half of commit, up to and including the header write. */
    method CommitPoint() returns (ok: bool)
      requires Valid() && Quiet() && n > 0
      modifies cache
      ensures cache.Valid() && cache.Mem() == old(cache.Mem())
      ensures ok <==> |old(cache.Mem())| < NBUF
      ensures !ok ==> cache.disk == old(cache.disk) && cache.trace == old(cache.trace)
      ensures ok ==>
        var ws := LogWrites(start, DataOf(old(cache.Mem()), block[..n]));
        var h := PutHead(old(cache.disk[start]), block[..n]);
        && Fits(old(cache.disk), ws) && cache.disk == Apply(old(cache.disk), ws)[start := h]
        && cache.trace == old(cache.trace) + ws + [Write(start, h)]
    {
      ghost var d, homes := cache.disk, block[..n];
      ghost var data := DataOf(cache.Mem(), homes);
      CommitDisks(d, start, homes, data);
      assert forall i :: 0 <= i < n ==> block[i] == homes[i];
      hide Cache.Valid, MemOf, Apply, LogWrites, Homes;
      ok := WriteLog();
      if ok {
        ok := WriteHead();
      }
    }

    /** The second half of commit: install, then clear the header. */
    method InstallAndClear(ghost data: seq<Block>)
      requires Valid() && Quiet() && |cache.Mem()| < NBUF
      requires data == DataOf(cache.Mem(), block[..n])
      requires forall i :: 0 <= i < n ==> data[i] == cache.disk[start + 1 + i]
      modifies this`n, cache
      ensures Valid() && Quiet() && n == 0
      ensures cache.Mem() == DropAll(old(cache.Mem()), block[..old(n)], old(n))
      ensures
        var ws := HomeWrites(block[..old(n)], data);
        var h := PutHead(old(cache.disk[start]), []);
        && Fits(old(cache.disk), ws) && cache.disk == Apply(old(cache.disk), ws)[start := h]
        && cache.trace == old(cache.trace) + ws + [Write(start, h)]
    {
      ghost var d := cache.disk;
      ghost var ws := HomeWrites(block[..n], data);
      hide Cache.Valid, MemOf, DropAll, Apply;
      InstallTrans(false, data);
      ApplyFrame(d, ws, start);
      n := 0;
      assert block[..0] == [];
      var ok := WriteHead();
    }

    /** begin_op, when it gets the log's lock: goes ahead exactly when no commit is under way and a reservation fits; false is a sleep. */
    method BeginOp() returns (ok: bool)
      requires Valid()
      modifies this`outstanding
      ensures Valid() && ok == (!committing && n + (old(outstanding) + 1) * MAXOPBLOCKS <= LOGSIZE)
      ensures outstanding == if ok then old(outstanding) + 1 else old(outstanding)
    {
      hide Cache.Valid, MemOf, Homes;
      if committing || n + (outstanding + 1) * MAXOPBLOCKS > LOGSIZE {
        return false;
      }
      outstanding := outstanding + 1;
      return true;
    }

    /**
      end_op: the last operation to end commits everything recorded since the last commit, and
      the others leave disk, cache and log alone. It fails only as commit does.
     */
    method EndOp() returns (ok: bool)
      requires Valid() && Quiet() && outstanding > 0 && !committing
      modifies this`n, this`outstanding, this`committing, cache
      ensures outstanding == old(outstanding) - 1
      ensures ok <==> old(outstanding) > 1 || old(n) == 0 || |old(cache.Mem())| < NBUF
      ensures ok ==> Valid() && Quiet() && !committing
      ensures old(outstanding) > 1 ==> n == old(n) && cache.Mem() == old(cache.Mem()) && cache.disk == old(cache.disk)
      ensures ok && old(outstanding) == 1 ==>
        && n == 0 && cache.Mem() == DropAll(old(cache.Mem()), block[..old(n)], old(n))
        && var ws := CommitWrites(old(cache.disk), start, block[..old(n)], DataOf(old(cache.Mem()), block[..old(n)]));
        && Fits(old(cache.disk), ws) && cache.disk == Apply(old(cache.disk), ws)
    {
      hide Cache.Valid, MemOf, Homes, Apply, DropAll, CommitWrites, DataOf;
      outstanding := outstanding - 1;
      if outstanding > 0 {
        return true;
      }
      committing := true;
      ok := Commit();
      if ok {
        committing := false;
      }
    }

    /**
      log_write by a holder of the buffer: panics on a full log, even if the block is already
      recorded, and outside a transaction. Otherwise a block already recorded is absorbed, and a
      new one is recorded last and pinned.
     */
    method LogWrite(buf: nat, b: nat) returns (ok: bool)
      requires Valid() && Holds(cache.bufs, buf, b)
      requires IsHome(start, b) && b < |cache.disk| && b < TWO32
      modifies this`n, this`block, cache`bufs
      ensures Valid() && Holds(cache.bufs, buf, b)
      ensures ok <==> old(n) < LOGSIZE && old(n) < size - 1 && outstanding >= 1
      ensures !ok || b in old(block[..n]) ==> n == old(n) && block[..n] == old(block[..n]) && cache.Mem() == old(cache.Mem())
      ensures ok && b !in old(block[..n]) ==> b in old(cache.Mem()) && block[..n] == old(block[..n]) + [b]
      ensures ok && b !in old(block[..n]) ==> cache.Mem() == old(cache.Mem()[b := cache.Mem()[b].(refs := cache.Mem()[b].refs + 1)])
    {
      hide Cache.Valid, MemOf, Holds;
      if n >= LOGSIZE || n >= size - 1 || outstanding < 1 {
        return false;
      }
      ghost var was := block[..n];
      var i := 0;
      while i < n && block[i] != b
        invariant 0 <= i <= n
        invariant forall j :: 0 <= j < i ==> block[j] != b
      {
        i := i + 1;
      }
      assert i < n ==> was[i] == b;
      block := block[i := b];
      if i == n {
        cache.Bpin(buf, b);
        n := n + 1;
        assert block[..n] == was + [b];
      }
      return true;
    }
  }

  lemma {:induction false} SameHomes(d: Disk, d': Disk, start: nat, homes: seq<nat>)
    requires Homes(d, start, homes) && |d'| == |d|
    ensures Homes(d', start, homes)
  {
  }

  lemma {:induction false} HomesDistinct(d: Disk, start: nat, homes: seq<nat>)
    requires Homes(d, start, homes)
    ensures forall i, j :: 0 <= i < j < |homes| ==> homes[i] != homes[j]
    ensures start + LOGSIZE < |d| && forall i :: 0 <= i < |homes| ==> homes[i] < |d|
  {
  }

  /** A home block and its log block. */
  lemma {:induction false} HomeAndLog(d: Disk, start: nat, homes: seq<nat>, k: nat)
    requires Homes(d, start, homes) && k < |homes|
    ensures homes[k] != start + k + 1 && start + k + 1 < |d| && homes[k] < |d| && IsHome(start, homes[k]) && !IsHome(start, start + k + 1)
  {
  }

  /** Home blocks lie outside the log. */
  lemma {:induction false} HomeWriteKeepsLog(d: Disk, start: nat, homes: seq<nat>, k: nat, data: seq<Block>)
    requires Homes(d, start, homes) && |data| == |homes| && k < |homes| && forall i :: 0 <= i < |data| ==> d[start + 1 + i] == data[i]
    ensures homes[k] < |d| && forall i :: 0 <= i < |data| ==> d[homes[k] := data[k]][start + 1 + i] == data[i]
  {
  }

  lemma {:induction false} TakeNext<T>(t: seq<T>, ws: seq<T>, k: nat)
    requires k < |ws|
    ensures t + ws[..k] + [ws[k]] == t + ws[..k + 1]
  {
  }

  lemma {:induction false} Regroup<T>(t: seq<T>, a: seq<T>, x: T, b: seq<T>, y: T)
    ensures t + a + [x] + b + [y] == t + (a + [x] + b + [y])
  {
  }

  /** The disks commit passes through, and the one it ends with. */
  lemma {:induction false} CommitDisks(d: Disk, start: nat, homes: seq<nat>, data: seq<Block>)
    requires Homes(d, start, homes) && |homes| == |data| && homes != []
    ensures Fits(d, LogWrites(start, data))
    ensures
      var h := PutHead(d[start], homes);
      var d1 := Apply(d, LogWrites(start, data));
      var d2 := d1[start := h];
      && d1[start] == d[start]
      && (forall i :: 0 <= i < |homes| ==> d2[start + 1 + i] == data[i])
      && Fits(d2, HomeWrites(homes, data))
      && var d3 := Apply(d2, HomeWrites(homes, data));
      && d3[start] == h
      && CommitWrites(d, start, homes, data)
         == LogWrites(start, data) + [Write(start, h)] + HomeWrites(homes, data) + [Write(start, PutHead(h, []))]
      && Fits(d, CommitWrites(d, start, homes, data))
      && Apply(d, CommitWrites(d, start, homes, data)) == d3[start := PutHead(h, [])]
  {
    var ls, hs := LogWrites(start, data), HomeWrites(homes, data);
    var h := Write(start, PutHead(d[start], homes));
    var e := Write(start, PutHead(h.data, []));
    ApplyLogWrites(d, start, data, |data|);
    assert ls[..|data|] == ls;
    var d2 := Apply(d, ls)[start := h.data];
    ApplyAllHomeWrites(d2, start, homes, data);
    ApplyFrame(d2, hs, start);
    ApplySnoc(d, ls, h);
    ApplyConcat(d, ls + [h], hs);
    ApplySnoc(d, ls + [h] + hs, e);
  }

  /** What install_trans does to the blocks in use: the log block comes and goes, the home block loses its pin. */
  lemma {:induction false} InstallMem(m: map<nat, Entry>, l: nat, b: nat, data: Block, pinned: bool)
    requires l != b && l !in m
    requires if pinned then b in m && m[b].refs > 0 && m[b].data == data else b !in m
    ensures
      var refs := if pinned then m[b].refs else 0;
      var m4 := m[l := Entry(data, 1)][b := Entry(data, if pinned then refs else 1)];
      Dropped(Dropped(m4, l), b) == if pinned then Dropped(m, b) else m
  {
    var m4 := m[l := Entry(data, 1)][b := Entry(data, if pinned then m[b].refs else 1)];
    assert Dropped(m4, l) == m[b := m4[b]];
    if pinned {
      assert m[b := m[b]] == m;
    } else {
      assert m[b := m4[b]] - {b} == m;
    }
  }

  lemma {:induction false} CopyMem(m: map<nat, Entry>, l: nat, b: nat, data: Block, e: Entry)
    requires l != b && l !in m && b in m && m[b].refs > 0 && m[b].data == data && e.refs == 1
    ensures
      var m2 := m[l := e][b := Entry(data, m[b].refs + 1)];
      var m3 := m2[l := m2[l].(data := data)];
      && Dropped(m3, b) == m[l := Entry(data, 1)]
      && Dropped(m[l := Entry(data, 1)], l) == m
  {
    var m2 := m[l := e][b := Entry(data, m[b].refs + 1)];
    var m3 := m2[l := m2[l].(data := data)];
    assert Dropped(m3, b) == m[l := Entry(data, 1)];
  }

  /** No more blocks are in use than there are buffers. */
  lemma {:induction false} InUseBound(c: Cache)
    requires c.Valid()
    ensures |c.Mem()| <= NBUF
  {
    MemCount(c.bufs);
  }

  /**
    A log with LOGSIZE blocks recorded has every buffer pinned, because NBUF is LOGSIZE: commit
    cannot get a buffer for a log block and panics, although log_write accepted all the blocks.
   */
  lemma {:induction false} FullLogPanics(l: Log)
    requires l.Valid() && l.n == LOGSIZE
    ensures |l.cache.Mem()| == NBUF
  {
    InUseBound(l.cache);
    var homes := l.block[..l.n];
    var keys := set i | 0 <= i < |homes| :: homes[i];
    DistinctCount(homes, |homes|);
    assert keys <= l.cache.Mem().Keys;
    SubsetCount(keys, l.cache.Mem().Keys);
  }

  /** The log has recorded the blocks from 40 up to b, and nothing else is in use. */
  ghost predicate Filled(l: Log, b: nat)
    reads l, l.cache
  {
    && l.Valid() && l.start == 2 && l.size == LOGSIZE + 1 && l.outstanding == 3 && |l.cache.disk| == 100 && 40 <= b && l.n == b - 40
    && (forall x :: x in l.cache.Mem() <==> 40 <= x < b)
    && (forall i :: 0 <= i < l.n ==> l.block[i] < b)
  }

  /** One more block read, logged and released. */
  method RecordBlock(l: Log, b: nat)
    requires Filled(l, b) && b < 40 + LOGSIZE
    modifies l`n, l`block, l.cache
    ensures Filled(l, b + 1)
  {
    hide Cache.Valid, MemOf, Holds, Homes;
    var c := l.cache;
    RangeCount(c.Mem().Keys, 40, b);
    assert b !in l.block[..l.n];
    var r := c.Bread(b);
    var logged := l.LogWrite(r.value, b);
    assert l.block[..l.n][l.n - 1] == b;
    c.Brelse(r.value, b);
  }

  /** A new disk of 100 blocks, its log, and three operations that have begun. */
  method ThreeOperations() returns (l: Log)
    ensures fresh(l) && fresh(l.cache) && Filled(l, 40)
  {
    var d: Disk := seq(100, _ => ZeroBlock());
    EmptyHeader(d);
    hide Cache.Valid, MemOf, Homes, Recoverable, RecoverWrites, Apply;
    var c := new Cache(d);
    l := new Log(c, 2, LOGSIZE + 1);
    var went := l.BeginOp();
    went := l.BeginOp();
    went := l.BeginOp();
  }

  /** A log that log_write filled, and whose commit panics. */
  method FillLogAndCommit() returns (ok: bool)
    ensures !ok
  {
    hide Cache.Valid, MemOf, Homes;
    var l := ThreeOperations();
    var b := 40;
    while b < 40 + LOGSIZE
      invariant 40 <= b <= 40 + LOGSIZE && Filled(l, b) && fresh(l) && fresh(l.cache)
    {
      RecordBlock(l, b);
      b := b + 1;
    }
    FullLogPanics(l);
    assert l.Quiet();
    ok := l.Commit();
  }

  lemma {:induction false} RangeCount(s: set<nat>, lo: nat, hi: nat)
    requires lo <= hi && forall x :: x in s <==> lo <= x < hi
    ensures |s| == hi - lo
    decreases hi
  {
    if lo < hi {
      RangeCount(s - {hi - 1}, lo, hi - 1);
    }
  }

  lemma {:induction false} EmptyHeader(d: Disk)
    requires |d| == 100 && d[2] == ZeroBlock()
    ensures Recoverable(d, 2)
  {
    ZeroBlockWords(0);
  }

  lemma {:induction false} DistinctCount(xs: seq<nat>, k: nat)
    requires k <= |xs| && forall i, j :: 0 <= i < j < |xs| ==> xs[i] != xs[j]
    ensures |set i | 0 <= i < k :: xs[i]| == k
  {
    var s := set i | 0 <= i < k :: xs[i];
    if k > 0 {
      DistinctCount(xs, k - 1);
      assert s == (set i | 0 <= i < k - 1 :: xs[i]) + {xs[k - 1]};
    }
  }
}

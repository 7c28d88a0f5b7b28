/**
  The virtio disk driver and its device: eight descriptors that three-descriptor chains are made
  of, the avail ring from driver to device and the used ring back, both with 16-bit indices.
  Every method is one stretch under vdisk_lock, or one step of the device, and asks for no more
  of the state than Valid(), so they may be interleaved in any order by any number of processes.
 */
module Virtqueue {
  import opened Blocks

  const NUM := 8
  const TWO16 := 0x1_0000

  const F_NEXT := 1
  const F_WRITE := 2

  /** The disk's own unit. */
  const SECTOR := 512

  type Sector = s: seq<Byte> | |s| == SECTOR witness seq(SECTOR, _ => 0)

  /** What a descriptor points to: a command header, a buffer's data, a status byte. */
  datatype Addr = Nowhere | Ops(head: nat) | Data(buf: nat) | Status(head: nat)

  datatype Desc = Desc(addr: Addr, len: nat, flags: nat, next: nat)

  datatype Command = Command(write: bool, sector: nat)

  datatype Info = Info(b: Option<nat>, status: nat)

  /** Where a request is: in slot k of the avail ring, with the device, in slot k of the used ring, or done. */
  datatype Phase = Queued(k: nat) | Taken | Used(k: nat) | Done

  /** want: what buffer and block are to hold when it is done. */
  datatype Req = Req(buf: nat, blk: nat, d1: nat, d2: nat, cmd: Command, want: Block, phase: Phase)

  /** flags & VRING_DESC_F_NEXT */
  predicate HasNext(flags: nat)
  {
    flags % 2 == 1
  }

  /** Bit 1 of a descriptor's flags: the device may store where it points, and not load; clear, the reverse. */
  predicate DeviceWrites(flags: nat)
  {
    flags / 2 % 2 == 1
  }

  predicate OnDisk(platter: map<nat, Sector>, blk: nat)
  {
    2 * blk in platter && 2 * blk + 1 in platter
  }

  /** A block of the file system lies in two sectors. */
  function BlockOn(platter: map<nat, Sector>, blk: nat): (b: Block)
    requires OnDisk(platter, blk)
  {
    platter[2 * blk][..] + platter[2 * blk + 1][..]
  }

  /** A counter as its 16-bit index shows it, and the slot it names. */
  function Wrap(n: nat): (r: nat)
  {
    n % TWO16
  }

  function Slot(n: nat): (r: nat)
    ensures r < NUM
  {
    n % NUM
  }

  predicate OnRing(q: Req, avail: bool)
  {
    if avail then q.phase.Queued? else q.phase.Used?
  }

  /** Slot k of a ring holds a request that knows so. */
  ghost predicate InSlot(ring: seq<nat>, reqs: map<nat, Req>, k: nat, avail: bool)
    requires |ring| == NUM
  {
    var h := ring[Slot(k)];
    h in reqs && OnRing(reqs[h], avail) && reqs[h].phase.k == k
  }

  /** A request that should be on the ring is in its slot. */
  ghost predicate HasSlot(ring: seq<nat>, h: nat, q: Req, lo: nat, hi: nat, avail: bool)
    requires |ring| == NUM
  {
    OnRing(q, avail) ==> lo <= q.phase.k < hi && ring[Slot(q.phase.k)] == h
  }

  /** The slots lo .. hi of a ring hold exactly the requests whose phase says so. */
  ghost predicate RingOk(ring: seq<nat>, reqs: map<nat, Req>, lo: nat, hi: nat, avail: bool)
    requires |ring| == NUM
  {
    && lo <= hi <= lo + NUM
    && (forall k {:trigger InSlot(ring, reqs, k, avail)} :: lo <= k < hi ==> InSlot(ring, reqs, k, avail))
    && (forall h {:trigger HasSlot(ring, h, reqs[h], lo, hi, avail)} :: h in reqs ==> HasSlot(ring, h, reqs[h], lo, hi, avail))
  }

  ghost predicate Formatted(desc: seq<Desc>, h: nat, d1: nat, d2: nat, b: nat, write: bool)
    requires |desc| == NUM && h < NUM && d1 < NUM && d2 < NUM
  {
    && desc[h] == Desc(Ops(h), 16, F_NEXT, d1)
    && desc[d1] == Desc(Data(b), BSIZE, (if write then 0 else F_WRITE) + F_NEXT, d2)
    && desc[d2] == Desc(Status(h), 1, F_WRITE, 0)
  }

  /** The three descriptors of request h, as virtio_disk_rw formats them. */
  ghost predicate ChainOk(desc: seq<Desc>, owner: map<nat, nat>, h: nat, q: Req)
    requires |desc| == NUM
  {
    && h < NUM && q.d1 < NUM && q.d2 < NUM && h != q.d1 && h != q.d2 && q.d1 != q.d2
    && h in owner && q.d1 in owner && q.d2 in owner && owner[h] == h && owner[q.d1] == h && owner[q.d2] == h
    && Formatted(desc, h, q.d1, q.d2, q.buf, q.cmd.write)
  }

  /** Descriptor i belongs to the chain of request h. */
  ghost predicate InChain(i: nat, h: nat, reqs: map<nat, Req>)
  {
    i < NUM && h in reqs && (i == h || i == reqs[h].d1 || i == reqs[h].d2)
  }

  ghost predicate ChainsOk(desc: seq<Desc>, owner: map<nat, nat>, reqs: map<nat, Req>)
    requires |desc| == NUM
  {
    && (forall h {:trigger ChainOk(desc, owner, h, reqs[h])} :: h in reqs ==> ChainOk(desc, owner, h, reqs[h]))
    && (forall i {:trigger InChain(i, owner[i], reqs)} :: i in owner ==> InChain(i, owner[i], reqs))
  }

  /** A descriptor is free exactly when no chain holds it. */
  ghost predicate FreeOk(free: seq<bool>, owner: map<nat, nat>)
    requires |free| == NUM
  {
    forall i :: 0 <= i < NUM ==> (free[i] <==> i !in owner)
  }

  /** What the bookkeeping says of a request: its buffer, its status and whether the buffer waits. */
  ghost predicate ReqOk(info: seq<Info>, ops: seq<Command>, busy: set<nat>, data: map<nat, Block>, platter: map<nat, Sector>, h: nat, q: Req)
    requires |info| == NUM && |ops| == NUM
  {
    && h < NUM && info[h].b == Some(q.buf) && ops[h] == q.cmd
    && (q.buf in busy <==> q.phase != Done)
    && (info[h].status == if q.phase.Queued? || q.phase.Taken? then 0xff else 0)
    && q.buf in data && OnDisk(platter, q.blk) && q.cmd.sector == q.blk * (BSIZE / SECTOR)
    && q.want == (if q.cmd.write then data[q.buf] else BlockOn(platter, q.blk))
    && (q.phase.Used? || q.phase.Done? ==> data[q.buf] == BlockOn(platter, q.blk))
  }

  ghost predicate ReqsOk(info: seq<Info>, ops: seq<Command>, busy: set<nat>, data: map<nat, Block>, platter: map<nat, Sector>, reqs: map<nat, Req>)
    requires |info| == NUM && |ops| == NUM
  {
    forall h {:trigger ReqOk(info, ops, busy, data, platter, h, reqs[h])} :: h in reqs ==> ReqOk(info, ops, busy, data, platter, h, reqs[h])
  }

  ghost predicate Distinct(p: Req, q: Req)
  {
    p.buf != q.buf && p.blk != q.blk
  }

  /** Two requests never share a buffer or a block. */
  ghost predicate Apart(reqs: map<nat, Req>)
  {
    forall h, g {:trigger Distinct(reqs[h], reqs[g])} :: h in reqs && g in reqs && h != g ==> Distinct(reqs[h], reqs[g])
  }

  // ---------------------------------------------------------------- counting

  lemma {:induction false} Below8(s: set<nat>)
    requires forall i :: i in s ==> i < NUM
    ensures |s| <= NUM
  {
    var all := {0, 1, 2, 3, 4, 5, 6, 7};
    assert s <= all;
    assert all == s + (all - s);
  }

  ghost function Heads(ring: seq<nat>, lo: nat, n: nat): (s: set<nat>)
    requires |ring| == NUM
  {
    if n == 0 then {} else Heads(ring, lo, n - 1) + {ring[Slot(lo + n - 1)]}
  }

  /** The occupied slots of a ring name different requests. */
  lemma {:induction false} HeadsCount(ring: seq<nat>, reqs: map<nat, Req>, lo: nat, n: nat, hi: nat, avail: bool)
    requires |ring| == NUM && RingOk(ring, reqs, lo, hi, avail) && lo + n <= hi
    ensures |Heads(ring, lo, n)| == n
    ensures forall h :: h in Heads(ring, lo, n) ==> h in reqs && OnRing(reqs[h], avail) && lo <= reqs[h].phase.k < lo + n
    decreases n
  {
    if n > 0 {
      HeadsCount(ring, reqs, lo, n - 1, hi, avail);
      assert InSlot(ring, reqs, lo + n - 1, avail);
    }
  }

  /** With a descriptor that is the head of no request on the ring, the ring is not full. */
  lemma {:induction false} RoomInRing(ring: seq<nat>, reqs: map<nat, Req>, lo: nat, hi: nat, avail: bool, spare: nat)
    requires |ring| == NUM && RingOk(ring, reqs, lo, hi, avail)
    requires forall h :: h in reqs ==> h < NUM
    requires spare < NUM && (spare in reqs ==> !OnRing(reqs[spare], avail))
    ensures hi - lo < NUM
  {
    if hi - lo >= NUM {
      HeadsCount(ring, reqs, lo, NUM, hi, avail);
      Below8(Heads(ring, lo, NUM) + {spare});
    }
  }

  /** 16-bit indices tell whether a ring has unread slots, and which slot is next. */
  lemma {:induction false} Wrapped(lo: nat, hi: nat)
    requires lo <= hi <= lo + NUM
    ensures Wrap(lo) != Wrap(hi) <==> lo < hi
  {
  }

  lemma {:induction false} SlotNumber(n: nat)
    ensures Slot(Wrap(n)) == Slot(n) && Wrap(Wrap(n) + 1) == Wrap(n + 1)
  {
    var q, m := n / TWO16, n % TWO16;
    assert n == TWO16 * q + m;
    MultipleOfNum(8192 * q, m);
    if m == TWO16 - 1 {
      assert n + 1 == TWO16 * (q + 1);
    } else {
      assert n + 1 == TWO16 * q + (m + 1);
    }
  }

  lemma {:induction false} MultipleOfNum(k: nat, m: nat)
    ensures (NUM * k + m) % NUM == m % NUM
  {
  }

  /** Storing a new entry overwrites no slot that is still to be read. */
  lemma {:induction false} PushSlot(ring: seq<nat>, reqs: map<nat, Req>, reqs': map<nat, Req>, lo: nat, hi: nat, avail: bool, h: nat)
    requires |ring| == NUM && RingOk(ring, reqs, lo, hi, avail) && hi - lo < NUM
    requires h in reqs' && OnRing(reqs'[h], avail) && reqs'[h].phase.k == hi && (h in reqs ==> !OnRing(reqs[h], avail))
    requires forall g :: g != h ==> (g in reqs' <==> g in reqs) && (g in reqs ==> reqs'[g] == reqs[g])
    ensures RingOk(ring[Slot(hi) := h], reqs', lo, hi + 1, avail)
    ensures forall k :: lo <= k < hi ==> ring[Slot(hi) := h][Slot(k)] == ring[Slot(k)]
  {
    var ring' := ring[Slot(hi) := h];
    forall k | lo <= k < hi
      ensures ring'[Slot(k)] == ring[Slot(k)] && InSlot(ring', reqs', k, avail)
    {
      assert InSlot(ring, reqs, k, avail);
      assert Slot(k) != Slot(hi);
    }
    forall g | g in reqs'
      ensures HasSlot(ring', g, reqs'[g], lo, hi + 1, avail)
    {
      assert g in reqs ==> HasSlot(ring, g, reqs[g], lo, hi, avail);
    }
    assert InSlot(ring', reqs', hi, avail);
  }

  /** Reading the oldest entry. */
  lemma {:induction false} PopSlot(ring: seq<nat>, reqs: map<nat, Req>, reqs': map<nat, Req>, lo: nat, hi: nat, avail: bool)
    requires |ring| == NUM && RingOk(ring, reqs, lo, hi, avail) && lo < hi
    requires var h := ring[Slot(lo)]; h in reqs' && !OnRing(reqs'[h], avail)
    requires forall g :: g != ring[Slot(lo)] ==> (g in reqs' <==> g in reqs) && (g in reqs ==> reqs'[g] == reqs[g])
    ensures RingOk(ring, reqs', lo + 1, hi, avail)
    ensures ring[Slot(lo)] in reqs && OnRing(reqs[ring[Slot(lo)]], avail)
  {
    assert InSlot(ring, reqs, lo, avail);
    forall k | lo + 1 <= k < hi
      ensures InSlot(ring, reqs', k, avail)
    {
      assert InSlot(ring, reqs, k, avail);
    }
    forall g | g in reqs'
      ensures HasSlot(ring, g, reqs'[g], lo + 1, hi, avail)
    {
      assert g in reqs ==> HasSlot(ring, g, reqs[g], lo, hi, avail);
    }
  }

  /** A ring does not see a change of requests that are not on it. */
  lemma {:induction false} SameRing(ring: seq<nat>, reqs: map<nat, Req>, reqs': map<nat, Req>, lo: nat, hi: nat, avail: bool, h: nat)
    requires |ring| == NUM && RingOk(ring, reqs, lo, hi, avail)
    requires (h in reqs ==> !OnRing(reqs[h], avail)) && (h in reqs' ==> !OnRing(reqs'[h], avail))
    requires forall g :: g != h ==> (g in reqs' <==> g in reqs) && (g in reqs ==> reqs'[g] == reqs[g])
    ensures RingOk(ring, reqs', lo, hi, avail)
  {
    forall k | lo <= k < hi
      ensures InSlot(ring, reqs', k, avail)
    {
      assert InSlot(ring, reqs, k, avail);
    }
    forall g | g in reqs'
      ensures HasSlot(ring, g, reqs'[g], lo, hi, avail)
    {
      assert g in reqs ==> HasSlot(ring, g, reqs[g], lo, hi, avail);
    }
  }

  /** No three descriptors are free. */
  ghost predicate FewerThanThree(free: seq<bool>)
  {
    exists idx: seq<nat> :: |idx| < 3 && forall i :: 0 <= i < |free| && free[i] ==> i in idx
  }

  lemma {:induction false} FewFree(free: seq<bool>, idx: seq<nat>)
    requires |idx| < 3 && forall i :: 0 <= i < |free| && free[i] ==> i in idx
    ensures FewerThanThree(free)
  {
  }

  // ---------------------------------------------------------------- the whole state and its steps

  datatype Queue = Queue(free: seq<bool>, desc: seq<Desc>, ops: seq<Command>, info: seq<Info>, avail: seq<nat>, used: seq<nat>,
                         busy: set<nat>, data: map<nat, Block>, platter: map<nat, Sector>,
                         availN: nat, takenN: nat, usedN: nat, seenN: nat, owner: map<nat, nat>, reqs: map<nat, Req>)

  ghost predicate Inv(s: Queue)
  {
    && Sized(s)
    && FreeOk(s.free, s.owner) && ChainsOk(s.desc, s.owner, s.reqs)
    && RingOk(s.avail, s.reqs, s.takenN, s.availN, true)
    && RingOk(s.used, s.reqs, s.seenN, s.usedN, false)
    && ReqsOk(s.info, s.ops, s.busy, s.data, s.platter, s.reqs) && Apart(s.reqs)
  }

  function WithPhase(reqs: map<nat, Req>, h: nat, p: Phase): (r: map<nat, Req>)
    requires h in reqs
  {
    reqs[h := reqs[h].(phase := p)]
  }

  predicate Sized(s: Queue)
  {
    |s.free| == NUM && |s.desc| == NUM && |s.ops| == NUM && |s.info| == NUM && |s.avail| == NUM && |s.used| == NUM
  }

  /** A request for the two sectors of its block, that wants what the buffer, or the block, holds now. */
  ghost predicate WellAsked(s: Queue, q: Req)
  {
    && q.cmd.sector == q.blk * (BSIZE / SECTOR) && q.buf in s.data && OnDisk(s.platter, q.blk)
    && q.want == (if q.cmd.write then s.data[q.buf] else BlockOn(s.platter, q.blk))
  }

  lemma {:induction false} Requestable(s: Queue, b: nat, blk: nat)
    requires MayRequest(s, b, blk)
    ensures b in s.data && OnDisk(s.platter, blk) && blk * (BSIZE / SECTOR) == 2 * blk
  {
  }

  /** virtio_disk_rw publishes request q, with head h, in the next slot of the avail ring. */
  ghost predicate SubmitStep(s: Queue, s': Queue, h: nat, q: Req)
    requires Sized(s) && Sized(s')
  {
    && h < NUM && q.d1 < NUM && q.d2 < NUM && s.free[h] && s.free[q.d1] && s.free[q.d2] && h != q.d1 && h != q.d2 && q.d1 != q.d2
    && (forall i :: 0 <= i < NUM && !s.free[i] ==> s'.desc[i] == s.desc[i])
    && (forall i :: 0 <= i < NUM ==> s'.free[i] == (s.free[i] && i != h && i != q.d1 && i != q.d2))
    && Formatted(s'.desc, h, q.d1, q.d2, q.buf, q.cmd.write) && q.phase == Queued(s.availN)
    && WellAsked(s, q)
    && s' == s.(free := s'.free, desc := s'.desc, ops := s.ops[h := q.cmd], info := s.info[h := Info(Some(q.buf), 0xff)], busy := s.busy + {q.buf},
                avail := s.avail[Slot(s.availN) := h], availN := s.availN + 1,
                owner := s.owner[h := h][q.d1 := h][q.d2 := h], reqs := s.reqs[h := q])
  }

  /** A buffer or a block has one request at a time: the caller holds the buffer's lock. */
  ghost predicate MayRequest(s: Queue, b: nat, blk: nat)
  {
    && b in s.data && OnDisk(s.platter, blk)
    && forall g :: g in s.reqs ==> s.reqs[g].buf != b && s.reqs[g].blk != blk
  }

  lemma {:induction false} SubmitInv(s: Queue, s': Queue, h: nat, q: Req)
    requires Inv(s) && Sized(s') && SubmitStep(s, s', h, q) && MayRequest(s, q.buf, q.blk)
    ensures Inv(s') && h !in s.owner && h !in s.reqs
    ensures forall k :: s.takenN <= k < s.availN ==> s'.avail[Slot(k)] == s.avail[Slot(k)]
  {
    hide Apart, ReqsOk, ChainsOk, RingOk, FreeOk, Slot, Formatted;
    NewHead(s.free, s.owner, s.desc, s.reqs, h);
    RoomInRing(s.avail, s.reqs, s.takenN, s.availN, true, h);
    PushSlot(s.avail, s.reqs, s.reqs[h := q], s.takenN, s.availN, true, h);
    SameRing(s.used, s.reqs, s.reqs[h := q], s.seenN, s.usedN, false, h);
    NewChain(s.free, s'.free, s.desc, s'.desc, s.owner, s.reqs, h, q);
    NewReq(s.info, s.info[h := Info(Some(q.buf), 0xff)], s.ops, s.ops[h := q.cmd], s.busy, s.busy + {q.buf}, s.data, s.platter, s.reqs, h, q);
  }

  /** The device takes the oldest request, h, off the avail ring. */
  ghost predicate TakeStep(s: Queue, s': Queue, h: nat)
    requires Sized(s)
  {
    s.takenN < s.availN && h == s.avail[Slot(s.takenN)] && h in s.reqs && s' == s.(takenN := s.takenN + 1, reqs := WithPhase(s.reqs, h, Taken))
  }

  /** What the device finds there is the head of a live, formatted chain. */
  lemma {:induction false} TakeInv(s: Queue)
    requires Inv(s) && s.takenN < s.availN
    ensures Sized(s)
    ensures var h := s.avail[Slot(s.takenN)];
      && h in s.reqs && s.reqs[h].phase == Queued(s.takenN) && h < NUM
      && ChainOk(s.desc, s.owner, h, s.reqs[h]) && s.ops[h] == s.reqs[h].cmd
      && forall s' :: TakeStep(s, s', h) ==> Inv(s')
  {
    hide Apart, ReqsOk, ChainsOk, RingOk, FreeOk, Slot, ChainOk;
    var h := s.avail[Slot(s.takenN)];
    NextSlot(s.avail, s.reqs, s.takenN, s.availN, true);
    TheChain(s.desc, s.owner, s.reqs, h);
    TheReq(s.info, s.ops, s.busy, s.data, s.platter, s.reqs, h);
    var reqs' := WithPhase(s.reqs, h, Taken);
    PopSlot(s.avail, s.reqs, reqs', s.takenN, s.availN, true);
    SameRing(s.used, s.reqs, reqs', s.seenN, s.usedN, false, h);
    SameChains(s.desc, s.owner, s.reqs, h, Taken);
    PhaseReq(s.info, s.ops, s.busy, s.busy, s.data, s.platter, s.reqs, h, Taken);
    assert Inv(s.(takenN := s.takenN + 1, reqs := reqs'));
  }

  /** What a request and its chain look like. */
  lemma {:induction false} LiveRequest(s: Queue, h: nat)
    requires Inv(s) && h in s.reqs
    ensures Sized(s) && h < NUM && ChainOk(s.desc, s.owner, h, s.reqs[h]) && ReqOk(s.info, s.ops, s.busy, s.data, s.platter, h, s.reqs[h])
    ensures !s.free[h] && !s.free[s.reqs[h].d1] && !s.free[s.reqs[h].d2]
  {
    hide Apart, RingOk;
    TheChain(s.desc, s.owner, s.reqs, h);
    TheReq(s.info, s.ops, s.busy, s.data, s.platter, s.reqs, h);
    hide ChainsOk, ReqsOk;
  }

  /** A write stores the buffer in the two sectors of its block, a read the two sectors in the buffer; nothing else changes. */
  ghost predicate Moved(q: Req, data: map<nat, Block>, platter: map<nat, Sector>, data': map<nat, Block>, platter': map<nat, Sector>)
    requires q.buf in data && OnDisk(platter, q.blk)
  {
    && data'.Keys == data.Keys && platter'.Keys == platter.Keys
    && (forall b :: b in data && b != q.buf ==> data'[b] == data[b])
    && (forall k :: k in platter && k != 2 * q.blk && k != 2 * q.blk + 1 ==> platter'[k] == platter[k])
    && (if q.cmd.write then data'[q.buf] == data[q.buf] && BlockOn(platter', q.blk) == data[q.buf]
        else BlockOn(platter', q.blk) == BlockOn(platter, q.blk) && data'[q.buf] == BlockOn(platter, q.blk))
  }

  /** The first n sectors of a transfer are done. */
  ghost predicate PartlyMoved(q: Req, data: map<nat, Block>, platter: map<nat, Sector>, data': map<nat, Block>, platter': map<nat, Sector>, n: nat)
    requires q.buf in data && OnDisk(platter, q.blk)
  {
    var b, x := data[q.buf], BlockOn(platter, q.blk);
    if q.cmd.write then
      data' == data && platter' ==
        if n == 0 then platter
        else if n == 1 then platter[2 * q.blk := b[..SECTOR]]
        else platter[2 * q.blk := b[..SECTOR]][2 * q.blk + 1 := b[SECTOR..]]
    else
      platter' == platter && data' == data[q.buf := if n == 0 then b else if n == 1 then x[..SECTOR] + b[SECTOR..] else x]
  }

  lemma {:induction false} NextMoved(q: Req, data: map<nat, Block>, platter: map<nat, Sector>, data1: map<nat, Block>, platter1: map<nat, Sector>,
                                     data2: map<nat, Block>, platter2: map<nat, Sector>, k: nat)
    requires q.buf in data && OnDisk(platter, q.blk) && k < 2 && PartlyMoved(q, data, platter, data1, platter1, k)
    requires q.buf in data1 && 2 * q.blk + k in platter1
    requires if q.cmd.write then data2 == data1 && platter2 == platter1[2 * q.blk + k := data1[q.buf][SECTOR * k..SECTOR * (k + 1)]]
      else platter2 == platter1 && data2 == data1[q.buf := data1[q.buf][..SECTOR * k] + platter1[2 * q.blk + k] + data1[q.buf][SECTOR * (k + 1)..]]
    ensures PartlyMoved(q, data, platter, data2, platter2, k + 1)
  {
    var b, x := data[q.buf], BlockOn(platter, q.blk);
    if q.cmd.write {
      assert k == 1 ==> b[SECTOR..SECTOR * 2] == b[SECTOR..];
      assert k == 0 ==> b[0..SECTOR] == b[..SECTOR];
    } else if k == 0 {
      assert b[..0] + platter[2 * q.blk] + b[SECTOR..] == x[..SECTOR] + b[SECTOR..];
    } else {
      var y := x[..SECTOR] + b[SECTOR..];
      assert y[..SECTOR] + platter[2 * q.blk + 1] + y[BSIZE..] == x;
    }
  }

  lemma {:induction false} NothingMoved(q: Req, data: map<nat, Block>, platter: map<nat, Sector>)
    requires q.buf in data && OnDisk(platter, q.blk)
    ensures PartlyMoved(q, data, platter, data, platter, 0)
  {
  }

  lemma {:induction false} StillThere(q: Req, data: map<nat, Block>, platter: map<nat, Sector>, data': map<nat, Block>, platter': map<nat, Sector>, n: nat)
    requires q.buf in data && OnDisk(platter, q.blk) && PartlyMoved(q, data, platter, data', platter', n)
    ensures q.buf in data' && OnDisk(platter', q.blk)
  {
  }

  lemma {:induction false} AllMoved(q: Req, data: map<nat, Block>, platter: map<nat, Sector>, data': map<nat, Block>, platter': map<nat, Sector>)
    requires q.buf in data && OnDisk(platter, q.blk) && PartlyMoved(q, data, platter, data', platter', BSIZE / SECTOR)
    ensures Moved(q, data, platter, data', platter')
  {
    var b := data[q.buf];
    assert b[..SECTOR] + b[SECTOR..] == b;
  }

  /** The device completes request h, which it has taken: the transfer, the status byte, the next used slot. */
  ghost predicate CompleteStep(s: Queue, s': Queue, h: nat)
    requires Sized(s)
  {
    && h < NUM && h in s.reqs && s.reqs[h].phase == Taken && s.reqs[h].buf in s.data && OnDisk(s.platter, s.reqs[h].blk)
    && Moved(s.reqs[h], s.data, s.platter, s'.data, s'.platter)
    && s' == s.(info := s.info[h := Info(s.info[h].b, 0)], data := s'.data, platter := s'.platter, used := s.used[Slot(s.usedN) := h],
                usedN := s.usedN + 1, reqs := WithPhase(s.reqs, h, Used(s.usedN)))
  }

  lemma {:induction false} CompleteInv(s: Queue, s': Queue, h: nat)
    requires Inv(s) && CompleteStep(s, s', h)
    ensures Inv(s') && forall k :: s.seenN <= k < s.usedN ==> s'.used[Slot(k)] == s.used[Slot(k)]
  {
    hide Apart, ReqsOk, ChainsOk, RingOk, FreeOk, Slot;
    var reqs' := WithPhase(s.reqs, h, Used(s.usedN));
    HeadsSmall(s.desc, s.owner, s.reqs);
    RoomInRing(s.used, s.reqs, s.seenN, s.usedN, false, h);
    PushSlot(s.used, s.reqs, reqs', s.seenN, s.usedN, false, h);
    SameRing(s.avail, s.reqs, reqs', s.takenN, s.availN, true, h);
    SameChains(s.desc, s.owner, s.reqs, h, Used(s.usedN));
    CompleteReq(s.info, s.info[h := Info(s.info[h].b, 0)], s.ops, s.busy, s.data, s'.data, s.platter, s'.platter, s.reqs, h, Used(s.usedN));
  }

  /** The interrupt handler takes the oldest request, h, off the used ring. */
  ghost predicate SeeStep(s: Queue, s': Queue, h: nat)
    requires Sized(s)
  {
    && s.seenN < s.usedN && h == s.used[Slot(s.seenN)] && h in s.reqs
    && s' == s.(busy := s.busy - {s.reqs[h].buf}, seenN := s.seenN + 1, reqs := WithPhase(s.reqs, h, Done))
  }

  /** What the handler finds there is a live request's head, its buffer and status 0. */
  lemma {:induction false} SeeInv(s: Queue)
    requires Inv(s) && s.seenN < s.usedN
    ensures Sized(s)
    ensures var h := s.used[Slot(s.seenN)];
      && h in s.reqs && s.reqs[h].phase == Used(s.seenN) && h < NUM && s.info[h] == Info(Some(s.reqs[h].buf), 0)
      && forall s' :: SeeStep(s, s', h) ==> Inv(s')
  {
    hide Apart, ReqsOk, ChainsOk, RingOk, FreeOk, Slot;
    var h := s.used[Slot(s.seenN)];
    NextSlot(s.used, s.reqs, s.seenN, s.usedN, false);
    TheReq(s.info, s.ops, s.busy, s.data, s.platter, s.reqs, h);
    var reqs' := WithPhase(s.reqs, h, Done);
    PopSlot(s.used, s.reqs, reqs', s.seenN, s.usedN, false);
    SameRing(s.avail, s.reqs, reqs', s.takenN, s.availN, true, h);
    SameChains(s.desc, s.owner, s.reqs, h, Done);
    PhaseReq(s.info, s.ops, s.busy, s.busy - {s.reqs[h].buf}, s.data, s.platter, s.reqs, h, Done);
    assert Inv(s.(busy := s.busy - {s.reqs[h].buf}, seenN := s.seenN + 1, reqs := reqs'));
  }

  /** A finished request leaves, and its three descriptors are free. */
  ghost predicate FinishStep(s: Queue, s': Queue, h: nat)
    requires Sized(s) && Sized(s')
  {
    && h < NUM && h in s.reqs && s.reqs[h].phase == Done
    && (forall i :: 0 <= i < NUM && i != h && i != s.reqs[h].d1 && i != s.reqs[h].d2 ==> s'.desc[i] == s.desc[i])
    && (forall i :: 0 <= i < NUM ==> s'.free[i] == (s.free[i] || i == h || i == s.reqs[h].d1 || i == s.reqs[h].d2))
    && s' == s.(free := s'.free, desc := s'.desc, info := s.info[h := Info(None, s.info[h].status)],
                owner := s.owner - {h, s.reqs[h].d1, s.reqs[h].d2}, reqs := s.reqs - {h})
  }

  lemma {:induction false} FinishInv(s: Queue, s': Queue, h: nat)
    requires Inv(s) && Sized(s') && FinishStep(s, s', h)
    ensures Inv(s')
    ensures forall i :: 0 <= i < NUM ==> (s'.free[i] <==> s.free[i] || (i in s.owner && s.owner[i] == h))
  {
    hide Apart, ReqsOk, ChainsOk, RingOk, FreeOk;
    SameRing(s.avail, s.reqs, s.reqs - {h}, s.takenN, s.availN, true, h);
    SameRing(s.used, s.reqs, s.reqs - {h}, s.seenN, s.usedN, false, h);
    ChainGone(s.free, s'.free, s.desc, s'.desc, s.owner, s.reqs, h);
    ReqGone(s.info, s.info[h := Info(None, s.info[h].status)], s.ops, s.busy, s.data, s.platter, s.reqs, h);
  }

  /** A request finds fewer than three free descriptors: it gives back what it took, which rewrites free ones, and sleeps. */
  ghost predicate SpareStep(s: Queue, s': Queue)
    requires Sized(s) && Sized(s')
  {
    FewerThanThree(s.free) && s' == s.(desc := s'.desc) && forall i :: 0 <= i < NUM && !s.free[i] ==> s'.desc[i] == s.desc[i]
  }

  /** A failed allocation wrote free descriptors only. */
  lemma {:induction false} SpareInv(s: Queue, desc: seq<Desc>)
    requires Inv(s) && |desc| == NUM && forall i :: 0 <= i < NUM && !s.free[i] ==> desc[i] == s.desc[i]
    ensures Inv(s.(desc := desc))
  {
    hide Apart, ReqsOk, RingOk;
    FreeChainsKept(s.free, s.desc, desc, s.owner, s.reqs);
  }

  lemma {:induction false} RingBounds(s: Queue)
    requires Inv(s)
    ensures s.takenN <= s.availN <= s.takenN + NUM && s.seenN <= s.usedN <= s.seenN + NUM
    ensures Sized(s)
  {
  }

  // ---------------------------------------------------------------- every run

  /** As virtio_disk_init leaves it: every descriptor free, both rings empty. */
  ghost predicate Start(s: Queue)
  {
    && Sized(s) && s.owner == map[] && s.reqs == map[] && (forall i :: 0 <= i < NUM ==> s.free[i])
    && s.availN == 0 && s.takenN == 0 && s.usedN == 0 && s.seenN == 0
  }

  /** One step of the driver or the device; any process may make a request, any taken one may complete. */
  ghost predicate Step(s: Queue, s': Queue)
    requires Sized(s) && Sized(s')
  {
    || (exists h, q: Req :: MayRequest(s, q.buf, q.blk) && SubmitStep(s, s', h, q))
    || SpareStep(s, s')
    || (exists h :: TakeStep(s, s', h))
    || (exists h :: CompleteStep(s, s', h))
    || (exists h :: SeeStep(s, s', h))
    || (exists h :: FinishStep(s, s', h))
  }

  lemma {:induction false} StepInv(s: Queue, s': Queue)
    requires Inv(s) && Sized(s') && Step(s, s')
    ensures Inv(s')
  {
    hide FreeOk, ChainsOk, RingOk, ReqsOk, Apart;
    if h, q: Req :| MayRequest(s, q.buf, q.blk) && SubmitStep(s, s', h, q) {
      hide SubmitStep, MayRequest;
      SubmitInv(s, s', h, q);
    } else if SpareStep(s, s') {
      SpareInv(s, s'.desc);
    } else if h :| TakeStep(s, s', h) {
      TakeInv(s);
    } else if h :| CompleteStep(s, s', h) {
      hide CompleteStep;
      CompleteInv(s, s', h);
    } else if h :| SeeStep(s, s', h) {
      SeeInv(s);
    } else {
      var h :| FinishStep(s, s', h);
      hide FinishStep;
      FinishInv(s, s', h);
    }
  }

  lemma {:induction false} StartInv(s: Queue)
    requires Start(s)
    ensures Inv(s)
  {
  }

  /** The invariant holds in every state of every run from the start. */
  lemma {:induction false} RunInv(run: seq<Queue>, k: nat)
    requires k < |run| && Start(run[0])
    requires forall i :: 0 <= i < |run| ==> Sized(run[i])
    requires forall i :: 0 <= i < |run| - 1 ==> Step(run[i], run[i + 1])
    ensures Inv(run[k])
    decreases k
  {
    if k == 0 {
      StartInv(run[0]);
    } else {
      RunInv(run, k - 1);
      assert Step(run[k - 1], run[k - 1 + 1]);
      StepInv(run[k - 1], run[k]);
    }
  }

  /**
    What the descriptors of a live request let the device do: load a 16-byte command, move the whole
    buffer, storing into it if and only if the request reads the disk, and store one status byte.
   */
  lemma {:induction false} ChainAllows(s: Queue, h: nat)
    requires Inv(s) && h in s.reqs
    ensures Sized(s) && h < NUM && s.reqs[h].d1 < NUM && s.reqs[h].d2 < NUM
    ensures var d0, d1, d2 := s.desc[h], s.desc[s.reqs[h].d1], s.desc[s.reqs[h].d2];
      && !DeviceWrites(d0.flags) && d0.addr == Ops(h) && d0.len == 16
      && (DeviceWrites(d1.flags) <==> !s.ops[h].write) && d1.addr == Data(s.reqs[h].buf) && d1.len == BSIZE
      && DeviceWrites(d2.flags) && d2.addr == Status(h) && d2.len == 1
      && HasNext(d0.flags) && d0.next == s.reqs[h].d1 && HasNext(d1.flags) && d1.next == s.reqs[h].d2 && !HasNext(d2.flags)
  {
    hide Apart, RingOk;
    LiveRequest(s, h);
  }

  /** What the invariant says of descriptors: live chains are three apart, and the rest are free. */
  lemma {:induction false} ChainsApart(s: Queue, h: nat, g: nat, i: nat)
    requires Inv(s) && h in s.reqs && g in s.reqs && i < NUM
    ensures i in Chain(h, s.reqs[h]) && i in Chain(g, s.reqs[g]) ==> h == g
    ensures |Chain(h, s.reqs[h])| == 3 && (i in Chain(h, s.reqs[h]) ==> !s.free[i])
    ensures !s.free[i] ==> exists f :: f in s.reqs && i in Chain(f, s.reqs[f])
  {
    LiveRequest(s, h);
    LiveRequest(s, g);
    hide RingOk, ReqsOk, Apart;
    if !s.free[i] {
      assert InChain(i, s.owner[i], s.reqs);
      assert s.owner[i] in s.reqs && i in Chain(s.owner[i], s.reqs[s.owner[i]]);
    }
  }

  ghost function Chain(h: nat, q: Req): (c: set<nat>)
  {
    {h, q.d1, q.d2}
  }

  class VirtioDisk {
    var free: seq<bool>
    var desc: seq<Desc>
    var ops: seq<Command>
    var info: seq<Info>
    var avail: seq<nat>
    var availIdx: nat
    var used: seq<nat>
    var usedIdx: nat
    var seenIdx: nat
    var busy: set<nat>
    var data: map<nat, Block>
    // the device's own state
    var takenIdx: nat
    var platter: map<nat, Sector>
    ghost var availN: nat
    ghost var takenN: nat
    ghost var usedN: nat
    ghost var seenN: nat
    ghost var owner: map<nat, nat>
    ghost var reqs: map<nat, Req>

    ghost predicate Sizes()
      reads this
    {
      |free| == NUM && |desc| == NUM && |ops| == NUM && |info| == NUM && |avail| == NUM && |used| == NUM
    }

    ghost function Now(): (s: Queue)
      reads this
    {
      Queue(free, desc, ops, info, avail, used, busy, data, platter, availN, takenN, usedN, seenN, owner, reqs)
    }

    ghost predicate Valid()
      reads this
    {
      && availIdx == Wrap(availN) && takenIdx == Wrap(takenN) && usedIdx == Wrap(usedN) && seenIdx == Wrap(seenN)
      && Inv(Now())
    }

    /** virtio_disk_init: everything free, both rings empty. */
    constructor (data: map<nat, Block>, platter: map<nat, Sector>)
      ensures Valid() && Start(Now()) && this.data == data && this.platter == platter
    {
      free := seq(NUM, _ => true);
      desc := seq(NUM, _ => Desc(Nowhere, 0, 0, 0));
      ops := seq(NUM, _ => Command(false, 0));
      info := seq(NUM, _ => Info(None, 0));
      avail, used := seq(NUM, _ => 0), seq(NUM, _ => 0);
      availIdx, usedIdx, seenIdx, takenIdx := 0, 0, 0, 0;
      availN, takenN, usedN, seenN := 0, 0, 0, 0;
      busy := {};
      this.data, this.platter := data, platter;
      owner, reqs := map[], map[];
    }

    /** alloc_desc: the first free descriptor, or none. */
    method AllocDesc() returns (r: Option<nat>)
      requires |free| == NUM
      modifies this`free
      ensures r.None? ==> free == old(free) && forall i :: 0 <= i < NUM ==> !free[i]
      ensures r.Some? ==> r.value < NUM && old(free)[r.value] && free == old(free)[r.value := false]
      ensures r.Some? ==> forall j :: 0 <= j < r.value ==> !old(free)[j]
    {
      var i := 0;
      while i < NUM
        invariant 0 <= i <= NUM && free == old(free)
        invariant forall j :: 0 <= j < i ==> !free[j]
      {
        if free[i] {
          free := free[i := false];
          return Some(i);
        }
        i := i + 1;
      }
      return None;
    }

    /** free_desc: panics on a number out of range or a free descriptor. */
    method FreeDesc(i: nat) returns (ok: bool)
      requires |free| == NUM && |desc| == NUM
      modifies this`free, this`desc
      ensures ok <==> i < NUM && !old(free)[i]
      ensures !ok ==> free == old(free) && desc == old(desc)
      ensures ok ==> free == old(free)[i := true] && desc == old(desc)[i := Desc(Nowhere, 0, 0, 0)]
    {
      if i >= NUM || free[i] {
        return false;
      }
      desc := desc[i := Desc(Nowhere, 0, 0, 0)];
      free := free[i := true];
      return true;
    }

    /** alloc3_desc: three free descriptors; fails only when there are not three, and then gives back what it took. */
    method Alloc3() returns (ok: bool, idx: seq<nat>)
      requires |free| == NUM && |desc| == NUM
      modifies this`free, this`desc
      ensures |free| == NUM && |desc| == NUM
      ensures forall i :: 0 <= i < NUM && !old(free)[i] ==> desc[i] == old(desc)[i]
      ensures !ok ==> free == old(free) && FewerThanThree(free)
      ensures ok ==>
        && |idx| == 3 && idx[0] != idx[1] && idx[0] != idx[2] && idx[1] != idx[2]
        && (forall j :: 0 <= j < 3 ==> idx[j] < NUM && old(free)[idx[j]])
        && (forall i :: 0 <= i < NUM ==> free[i] == (old(free)[i] && i != idx[0] && i != idx[1] && i != idx[2]))
    {
      idx := [];
      while |idx| < 3
        invariant |idx| <= 3 && |free| == NUM && desc == old(desc)
        invariant forall j, k :: 0 <= j < k < |idx| ==> idx[j] != idx[k]
        invariant forall j :: 0 <= j < |idx| ==> idx[j] < NUM && old(free)[idx[j]]
        invariant forall i :: 0 <= i < NUM ==> free[i] == (old(free)[i] && i !in idx)
      {
        var r := AllocDesc();
        if r.None? {
          GiveBack(idx, old(free), old(desc));
          FewFree(free, idx);
          return false, idx;
        }
        idx := idx + [r.value];
      }
      assert idx == [idx[0], idx[1], idx[2]];
      return true, idx;
    }

    /** The loop in alloc3_desc that frees what it took. */
    method GiveBack(idx: seq<nat>, ghost free0: seq<bool>, ghost desc0: seq<Desc>)
      requires |free0| == NUM && |desc0| == NUM && |free| == NUM && desc == desc0
      requires forall j, k :: 0 <= j < k < |idx| ==> idx[j] != idx[k]
      requires forall j :: 0 <= j < |idx| ==> idx[j] < NUM && free0[idx[j]]
      requires forall i :: 0 <= i < NUM ==> free[i] == (free0[i] && i !in idx)
      modifies this`free, this`desc
      ensures |desc| == NUM && free == free0
      ensures forall i :: 0 <= i < NUM && !free0[i] ==> desc[i] == desc0[i]
    {
      var j := 0;
      while j < |idx|
        invariant 0 <= j <= |idx| && |free| == NUM && |desc| == NUM
        invariant forall i :: 0 <= i < NUM ==> free[i] == (free0[i] && i !in idx[j..])
        invariant forall i :: 0 <= i < NUM && !free0[i] ==> desc[i] == desc0[i]
      {
        assert idx[j..] == [idx[j]] + idx[j + 1..];
        var f := FreeDesc(idx[j]);
        j := j + 1;
      }
    }

    /** free_chain on the chain of a request: exactly its three descriptors, and neither panic. */
    method FreeChain(head: nat, ghost d1: nat, ghost d2: nat) returns (ok: bool)
      requires |free| == NUM && |desc| == NUM && head < NUM && d1 < NUM && d2 < NUM && head != d1 && head != d2 && d1 != d2
      requires !free[head] && !free[d1] && !free[d2]
      requires HasNext(desc[head].flags) && desc[head].next == d1 && HasNext(desc[d1].flags) && desc[d1].next == d2 && !HasNext(desc[d2].flags)
      modifies this`free, this`desc
      ensures ok && free == old(free)[head := true][d1 := true][d2 := true] && |desc| == NUM
      ensures forall i :: 0 <= i < NUM && i != head && i != d1 && i != d2 ==> desc[i] == old(desc)[i]
    {
      ghost var path := [head, d1, d2];
      ghost var n := 0;
      var i := head;
      ok := true;
      while true
        invariant 0 <= n <= 2 && ok && i == path[n] && |free| == NUM && |desc| == NUM
        invariant n == 0 ==> free == old(free)
        invariant n == 1 ==> free == old(free)[head := true]
        invariant n == 2 ==> free == old(free)[head := true][d1 := true]
        invariant forall j :: 0 <= j < NUM && j !in path[..n] ==> desc[j] == old(desc)[j]
        decreases 3 - n
      {
        var flag, nxt := desc[i].flags, desc[i].next;
        ok := FreeDesc(i);
        n := n + 1;
        if HasNext(flag) {
          i := nxt;
        } else {
          break;
        }
      }
    }

    /** Filling in the three descriptors, the command header and the record for the interrupt. */
    method Format(h: nat, d1: nat, d2: nat, b: nat, cmd: Command)
      requires Sizes() && h < NUM && d1 < NUM && d2 < NUM && h != d1 && h != d2 && d1 != d2
      modifies this`ops, this`desc, this`info, this`busy
      ensures ops == old(ops)[h := cmd] && info == old(info)[h := Info(Some(b), 0xff)] && busy == old(busy) + {b}
      ensures |desc| == NUM && forall i :: 0 <= i < NUM && i != h && i != d1 && i != d2 ==> desc[i] == old(desc)[i]
      ensures Formatted(desc, h, d1, d2, b, cmd.write)
    {
      ops := ops[h := cmd];
      desc := desc[h := Desc(Ops(h), 16, F_NEXT, d1)];
      desc := desc[d1 := Desc(Data(b), BSIZE, (if cmd.write then 0 else F_WRITE) + F_NEXT, d2)];
      info := info[h := Info(info[h].b, 0xff)];
      desc := desc[d2 := Desc(Status(h), 1, F_WRITE, 0)];
      busy := busy + {b};
      info := info[h := Info(Some(b), info[h].status)];
    }

    /**
      The device moves one sector of the data descriptor d: it stores only where bit 1 of the flags
      is set and loads only where it is clear; otherwise nothing happens.
     */
    method MoveSector(cmd: Command, d: nat, k: nat) returns (ok: bool)
      requires |desc| == NUM && d < NUM && desc[d].addr.Data? && desc[d].addr.buf in data && k < BSIZE / SECTOR && cmd.sector + k in platter
      modifies this`data, this`platter
      ensures ok <==> (cmd.write <==> !DeviceWrites(desc[d].flags))
      ensures var b := desc[d].addr.buf;
        && (ok && cmd.write ==> data == old(data) && platter == old(platter)[cmd.sector + k := old(data)[b][SECTOR * k..SECTOR * (k + 1)]])
        && (ok && !cmd.write ==> platter == old(platter))
        && (ok && !cmd.write ==> data == old(data)[b := old(data)[b][..SECTOR * k] + platter[cmd.sector + k] + old(data)[b][SECTOR * (k + 1)..]])
    {
      var b := desc[d].addr.buf;
      if cmd.write && !DeviceWrites(desc[d].flags) {
        platter := platter[cmd.sector + k := data[b][SECTOR * k..SECTOR * (k + 1)]];
        return true;
      }
      if !cmd.write && DeviceWrites(desc[d].flags) {
        data := data[b := data[b][..SECTOR * k] + platter[cmd.sector + k] + data[b][SECTOR * (k + 1)..]];
        return true;
      }
      return false;
    }

    /**
      The device's work on a request, which it finds by following the chain: it reads the command
      where it may, moves len bytes sector by sector where it may, and stores the status byte
      where it may. On a live request it never meets a descriptor that forbids it.
     */
    method Transfer(h: nat, ghost q: Req) returns (ok: bool, moved: nat)
      requires Sizes() && h < NUM && q.d1 < NUM && q.d2 < NUM && Formatted(desc, h, q.d1, q.d2, q.buf, q.cmd.write)
      requires ops[h] == q.cmd && q.buf in data && OnDisk(platter, q.blk) && q.cmd.sector == q.blk * (BSIZE / SECTOR)
      modifies this`data, this`platter, this`info
      ensures ok && moved == BSIZE
      ensures info == old(info)[h := Info(old(info)[h].b, 0)]
      ensures Moved(q, old(data), old(platter), data, platter)
    {
      hide PartlyMoved, Moved, BlockOn;
      NothingMoved(q, data, platter);
      moved := 0;
      if DeviceWrites(desc[h].flags) || desc[h].len < 16 {
        return false, moved;
      }
      var cmd, d := ops[desc[h].addr.head], desc[h].next;
      ok := true;
      while moved < desc[d].len
        invariant ok && moved <= BSIZE && moved % SECTOR == 0
        invariant info == old(info) && PartlyMoved(q, old(data), old(platter), data, platter, moved / SECTOR)
        decreases BSIZE - moved
      {
        ghost var data1, platter1 := data, platter;
        StillThere(q, old(data), old(platter), data, platter, moved / SECTOR);
        ok := MoveSector(cmd, d, moved / SECTOR);
        NextMoved(q, old(data), old(platter), data1, platter1, data, platter, moved / SECTOR);
        moved := moved + SECTOR;
      }
      AllMoved(q, old(data), old(platter), data, platter);
      var t := desc[desc[d].next];
      if !DeviceWrites(t.flags) || t.len < 1 {
        return false, moved;
      }
      info := info[t.addr.head := Info(info[t.addr.head].b, 0)];
    }

    /**
      virtio_disk_rw up to its first wait: with three free descriptors a formatted chain goes to
      the next slot of the avail ring; otherwise nothing happens, and the caller sleeps.
     */
    method Submit(b: nat, write: bool, blk: nat) returns (r: Option<nat>)
      requires Valid() && MayRequest(Now(), b, blk)
      modifies this
      ensures Valid() && Sized(old(Now())) && Sized(Now())
      ensures r.None? ==> SpareStep(old(Now()), Now())
      ensures r.Some? ==>
        && r.value in reqs && reqs[r.value].buf == b && reqs[r.value].blk == blk && reqs[r.value].cmd == Command(write, 2 * blk)
        && reqs[r.value].want == (if write then old(data)[b] else BlockOn(old(platter), blk))
        && SubmitStep(old(Now()), Now(), r.value, reqs[r.value])
    {
      hide Inv, Wrap, Slot, Formatted, FewerThanThree, MayRequest, BlockOn, OnDisk, SubmitStep;
      ghost var s := Now();
      RingBounds(s);
      var ok, idx := Alloc3();
      if !ok {
        SpareInv(s, desc);
        return None;
      }
      SubmitOn(idx[0], idx[1], idx[2], b, write, blk, s);
      return Some(idx[0]);
    }

    /** The request goes out on three descriptors that were free in s. */
    method SubmitOn(h: nat, d1: nat, d2: nat, b: nat, write: bool, blk: nat, ghost s: Queue)
      requires Inv(s) && MayRequest(s, b, blk) && Sized(Now()) && availIdx == Wrap(availN) && Now() == s.(free := free, desc := desc)
      requires h < NUM && d1 < NUM && d2 < NUM && s.free[h] && s.free[d1] && s.free[d2] && h != d1 && h != d2 && d1 != d2
      requires forall i :: 0 <= i < NUM && !s.free[i] ==> desc[i] == s.desc[i]
      requires forall i :: 0 <= i < NUM ==> free[i] == (s.free[i] && i != h && i != d1 && i != d2)
      modifies this`ops, this`desc, this`info, this`busy, this`avail, this`availIdx, this`availN, this`owner, this`reqs
      ensures b in s.data && OnDisk(s.platter, blk) && Sized(Now()) && availIdx == Wrap(availN) && Inv(Now())
      ensures h in reqs && SubmitStep(s, Now(), h, reqs[h])
      ensures reqs[h] == Req(b, blk, d1, d2, Command(write, 2 * blk), if write then s.data[b] else BlockOn(s.platter, blk), Queued(s.availN))
    {
      hide Inv, Wrap, Slot, FewerThanThree, MayRequest, BlockOn, OnDisk, SubmitStep;
      RingBounds(s);
      Requestable(s, b, blk);
      var cmd := Command(write, blk * (BSIZE / SECTOR));
      ghost var q := Req(b, blk, d1, d2, cmd, if write then s.data[b] else BlockOn(s.platter, blk), Queued(s.availN));
      Request(h, d1, d2, b, cmd, q, s);
      SubmitInv(s, Now(), h, q);
    }

    /** The three descriptors are filled in and published. */
    method Request(h: nat, d1: nat, d2: nat, b: nat, cmd: Command, ghost q: Req, ghost s: Queue)
      requires Sized(s) && Sized(Now()) && availIdx == Wrap(availN) && Now() == s.(free := free, desc := desc)
      requires q == Req(b, q.blk, d1, d2, cmd, q.want, Queued(s.availN)) && WellAsked(s, q)
      requires h < NUM && d1 < NUM && d2 < NUM && s.free[h] && s.free[d1] && s.free[d2] && h != d1 && h != d2 && d1 != d2
      requires forall i :: 0 <= i < NUM && !s.free[i] ==> desc[i] == s.desc[i]
      requires forall i :: 0 <= i < NUM ==> free[i] == (s.free[i] && i != h && i != d1 && i != d2)
      modifies this`ops, this`desc, this`info, this`busy, this`avail, this`availIdx, this`availN, this`owner, this`reqs
      ensures Sized(Now()) && availIdx == Wrap(availN)
      ensures h in reqs && reqs[h] == q && SubmitStep(s, Now(), h, q)
    {
      hide Wrap, Slot, Formatted, WellAsked;
      Format(h, d1, d2, b, cmd);
      Publish(h, q);
    }

    /** The slot of the avail ring, and then its index. */
    method Publish(h: nat, ghost q: Req)
      requires |avail| == NUM && availIdx == Wrap(availN)
      modifies this`avail, this`availIdx, this`availN, this`owner, this`reqs
      ensures availIdx == Wrap(availN) && availN == old(availN) + 1 && avail == old(avail)[Slot(old(availN)) := h]
      ensures owner == old(owner)[h := h][q.d1 := h][q.d2 := h] && reqs == old(reqs)[h := q]
    {
      hide Wrap, Slot;
      SlotNumber(availN);
      avail := avail[Slot(availIdx) := h];
      availIdx := Wrap(availIdx + 1);
      availN := availN + 1;
      owner := owner[h := h][q.d1 := h][q.d2 := h];
      reqs := reqs[h := q];
    }

    /** The device reads the next avail slot: always the head of a live, well-formed chain. */
    method DeviceTake() returns (r: Option<nat>, cmd: Command, buf: Addr)
      requires Valid()
      modifies this`takenIdx, this`takenN, this`reqs
      ensures Valid() && Sized(old(Now())) && (r.None? <==> old(takenN) == availN)
      ensures r.None? ==> reqs == old(reqs)
      ensures r.Some? ==> TakeStep(old(Now()), Now(), r.value) && cmd == old(reqs)[r.value].cmd && buf == Data(old(reqs)[r.value].buf)
    {
      hide Inv, Wrap, Slot;
      ghost var s := Now();
      RingBounds(s);
      Wrapped(takenN, availN);
      SlotNumber(takenN);
      cmd, buf := Command(false, 0), Nowhere;
      if takenIdx == availIdx {
        return None, cmd, buf;
      }
      TakeInv(s);
      var h := avail[Slot(takenIdx)];
      cmd := ops[desc[h].addr.head];
      buf := desc[desc[h].next].addr;
      takenIdx := Wrap(takenIdx + 1);
      takenN := takenN + 1;
      reqs := WithPhase(reqs, h, Taken);
      assert TakeStep(s, Now(), h);
      return Some(h), cmd, buf;
    }

    /** The device finishes any request it has taken: every descriptor allows what it does, and it moves a whole block. */
    method DeviceComplete(h: nat) returns (ok: bool, moved: nat)
      requires Valid() && h in reqs && reqs[h].phase == Taken
      modifies this
      ensures ok && moved == BSIZE
      ensures Valid() && Sized(old(Now())) && CompleteStep(old(Now()), Now(), h)
    {
      hide Inv, Wrap, Slot, Formatted, BlockOn, Moved, OnDisk;
      ghost var s := Now();
      RingBounds(s);
      SlotNumber(usedN);
      LiveRequest(s, h);
      ok, moved := Transfer(h, reqs[h]);
      used := used[Slot(usedIdx) := h];
      usedIdx := Wrap(usedIdx + 1);
      usedN := usedN + 1;
      reqs := WithPhase(reqs, h, Used(s.usedN));
      assert CompleteStep(s, Now(), h);
      hide CompleteStep;
      CompleteInv(s, Now(), h);
    }

    /** One turn of virtio_disk_intr's loop: the used slot names a live request, whose status is 0. */
    method IntrStep() returns (ok: bool, b: nat)
      requires Valid() && seenIdx != usedIdx
      modifies this`busy, this`seenIdx, this`seenN, this`reqs
      ensures ok && Valid() && Sized(old(Now())) && SeeStep(old(Now()), Now(), old(used)[Slot(old(seenN))])
      ensures b == old(reqs)[old(used)[Slot(old(seenN))]].buf && old(reqs)[old(used)[Slot(old(seenN))]].phase == Used(old(seenN))
    {
      hide Inv, Wrap, Slot;
      ghost var s := Now();
      b := 0;
      RingBounds(s);
      Wrapped(seenN, usedN);
      SlotNumber(seenN);
      SeeInv(s);
      var id := used[Slot(seenIdx)];
      if info[id].status != 0 || info[id].b.None? {
        ok := false;
        return;
      }
      b := info[id].b.value;
      busy := busy - {b};
      seenIdx := Wrap(seenIdx + 1);
      seenN := seenN + 1;
      reqs := WithPhase(reqs, id, Done);
      assert SeeStep(s, Now(), id);
      return true, b;
    }

    /** virtio_disk_intr: afterwards no request is on the used ring. */
    method Intr() returns (ok: bool)
      requires Valid()
      modifies this`busy, this`seenIdx, this`seenN, this`reqs
      ensures ok && Valid() && seenN == usedN && reqs.Keys == old(reqs).Keys
      ensures forall h :: h in reqs ==> reqs[h] == if old(reqs)[h].phase.Used? then old(reqs)[h].(phase := Done) else old(reqs)[h]
    {
      hide Inv, Wrap, Slot;
      RingBounds(Now());
      Wrapped(seenN, usedN);
      ok := true;
      while seenIdx != usedIdx
        invariant ok && Valid() && seenN <= usedN <= seenN + NUM && reqs.Keys == old(reqs).Keys
        invariant forall h :: h in reqs ==>
          reqs[h] == old(reqs)[h] || (old(reqs)[h].phase.Used? && reqs[h] == old(reqs)[h].(phase := Done))
        decreases usedN - seenN
      {
        var b;
        ok, b := IntrStep();
      }
      Wrapped(seenN, usedN);
      NoneUsed(Now());
    }

    /**
      The rest of virtio_disk_rw, once the buffer no longer waits: the chain goes back, with no
      panic; a write has stored what the buffer held when it was submitted, and a read has loaded what
      the block held then.
     */
    method Finish(b: nat, h: nat) returns (ok: bool)
      requires Valid() && h in reqs && reqs[h].buf == b && b !in busy
      modifies this
      ensures ok && Valid() && Sized(old(Now())) && Sized(Now()) && FinishStep(old(Now()), Now(), h)
      ensures b in data && OnDisk(platter, old(reqs)[h].blk) && data[b] == BlockOn(platter, old(reqs)[h].blk) == old(reqs)[h].want
    {
      hide Inv, Wrap, Slot, ChainOk, ReqOk, FinishStep;
      ghost var s := Now();
      RingBounds(s);
      LiveRequest(s, h);
      Finished(s, h);
      ok := Release(h, s);
      FinishInv(s, Now(), h);
    }

    /** The record is cleared and the chain freed. */
    method Release(h: nat, ghost s: Queue) returns (ok: bool)
      requires s == Now() && Sized(s) && h in reqs && reqs[h].phase == Done && h < NUM && ChainOk(desc, owner, h, reqs[h])
      requires !free[h] && !free[reqs[h].d1] && !free[reqs[h].d2]
      modifies this`info, this`free, this`desc, this`owner, this`reqs
      ensures ok && Sized(Now()) && FinishStep(s, Now(), h)
    {
      ghost var q := reqs[h];
      info := info[h := Info(None, info[h].status)];
      ok := FreeChain(h, q.d1, q.d2);
      hide ChainOk, Formatted;
      owner := owner - {h, q.d1, q.d2};
      reqs := reqs - {h};
    }
  }

  /** A live request whose buffer no longer waits is done, and its buffer and block hold what was wanted. */
  lemma {:induction false} Finished(s: Queue, h: nat)
    requires Sized(s) && h in s.reqs && ReqOk(s.info, s.ops, s.busy, s.data, s.platter, h, s.reqs[h]) && s.reqs[h].buf !in s.busy
    ensures s.reqs[h].phase == Done && s.reqs[h].buf in s.data && OnDisk(s.platter, s.reqs[h].blk)
    ensures s.data[s.reqs[h].buf] == BlockOn(s.platter, s.reqs[h].blk) == s.reqs[h].want
  {
  }

  lemma {:induction false} NoneUsed(s: Queue)
    requires Inv(s) && s.seenN == s.usedN
    ensures forall h :: h in s.reqs ==> !s.reqs[h].phase.Used?
  {
    forall h | h in s.reqs
      ensures !s.reqs[h].phase.Used?
    {
      assert HasSlot(s.used, h, s.reqs[h], s.seenN, s.usedN, false);
    }
  }

  lemma {:induction false} NextSlot(ring: seq<nat>, reqs: map<nat, Req>, lo: nat, hi: nat, avail: bool)
    requires |ring| == NUM && RingOk(ring, reqs, lo, hi, avail) && lo < hi
    ensures var h := ring[Slot(lo)]; h in reqs && OnRing(reqs[h], avail) && reqs[h].phase.k == lo
  {
    assert InSlot(ring, reqs, lo, avail);
  }

  lemma {:induction false} TheChain(desc: seq<Desc>, owner: map<nat, nat>, reqs: map<nat, Req>, h: nat)
    requires |desc| == NUM && ChainsOk(desc, owner, reqs) && h in reqs
    ensures ChainOk(desc, owner, h, reqs[h])
  {
  }

  lemma {:induction false} TheReq(info: seq<Info>, ops: seq<Command>, busy: set<nat>, data: map<nat, Block>, platter: map<nat, Sector>, reqs: map<nat, Req>, h: nat)
    requires |info| == NUM && |ops| == NUM && ReqsOk(info, ops, busy, data, platter, reqs) && h in reqs
    ensures h < NUM && ReqOk(info, ops, busy, data, platter, h, reqs[h])
  {
  }

  lemma {:induction false} HeadsSmall(desc: seq<Desc>, owner: map<nat, nat>, reqs: map<nat, Req>)
    requires |desc| == NUM && ChainsOk(desc, owner, reqs)
    ensures forall g :: g in reqs ==> g < NUM
  {
    forall g | g in reqs
      ensures g < NUM
    {
      assert ChainOk(desc, owner, g, reqs[g]);
    }
  }

  lemma {:induction false} NotFree(free: seq<bool>, owner: map<nat, nat>, i: nat)
    requires |free| == NUM && FreeOk(free, owner) && i in owner && i < NUM
    ensures !free[i]
  {
  }

  lemma {:induction false} NewHead(free: seq<bool>, owner: map<nat, nat>, desc: seq<Desc>, reqs: map<nat, Req>, h: nat)
    requires |free| == NUM && |desc| == NUM && FreeOk(free, owner) && ChainsOk(desc, owner, reqs) && h < NUM && free[h]
    ensures h !in reqs && h !in owner && forall g :: g in reqs ==> g < NUM
  {
    HeadsSmall(desc, owner, reqs);
    if h in reqs {
      TheChain(desc, owner, reqs, h);
    }
  }

  /** Descriptors of live chains are not free, so writing free ones leaves the chains alone. */
  lemma {:induction false} FreeChainsKept(free: seq<bool>, desc: seq<Desc>, desc': seq<Desc>, owner: map<nat, nat>, reqs: map<nat, Req>)
    requires |free| == NUM && |desc| == NUM && |desc'| == NUM && FreeOk(free, owner) && ChainsOk(desc, owner, reqs)
    requires forall i :: 0 <= i < NUM && !free[i] ==> desc'[i] == desc[i]
    ensures ChainsOk(desc', owner, reqs)
  {
    forall h | h in reqs
      ensures ChainOk(desc', owner, h, reqs[h])
    {
      assert ChainOk(desc, owner, h, reqs[h]);
    }
  }

  lemma {:induction false} NewChain(free: seq<bool>, free': seq<bool>, desc: seq<Desc>, desc': seq<Desc>, owner: map<nat, nat>, reqs: map<nat, Req>, h: nat, q: Req)
    requires |free| == NUM && |free'| == NUM && |desc| == NUM && |desc'| == NUM && FreeOk(free, owner) && ChainsOk(desc, owner, reqs)
    requires h < NUM && q.d1 < NUM && q.d2 < NUM && free[h] && free[q.d1] && free[q.d2] && h != q.d1 && h != q.d2 && q.d1 != q.d2
    requires forall i :: 0 <= i < NUM && !free[i] ==> desc'[i] == desc[i]
    requires forall i :: 0 <= i < NUM ==> free'[i] == (free[i] && i != h && i != q.d1 && i != q.d2)
    requires Formatted(desc', h, q.d1, q.d2, q.buf, q.cmd.write)
    ensures
      var owner' := owner[h := h][q.d1 := h][q.d2 := h];
      FreeOk(free', owner') && ChainsOk(desc', owner', reqs[h := q])
  {
    NewHead(free, owner, desc, reqs, h);
    var owner', reqs' := owner[h := h][q.d1 := h][q.d2 := h], reqs[h := q];
    forall g | g in reqs'
      ensures ChainOk(desc', owner', g, reqs'[g])
    {
      if g != h {
        assert ChainOk(desc, owner, g, reqs[g]);
      }
    }
    forall i | i in owner'
      ensures InChain(i, owner'[i], reqs')
    {
      if i in owner {
        assert InChain(i, owner[i], reqs);
      }
    }
  }

  lemma {:induction false} NewReq(info: seq<Info>, info': seq<Info>, ops: seq<Command>, ops': seq<Command>, busy: set<nat>, busy': set<nat>,
                                  data: map<nat, Block>, platter: map<nat, Sector>, reqs: map<nat, Req>, h: nat, q: Req)
    requires |info| == NUM && |info'| == NUM && |ops| == NUM && |ops'| == NUM && ReqsOk(info, ops, busy, data, platter, reqs) && Apart(reqs)
    requires h < NUM && info' == info[h := Info(Some(q.buf), 0xff)] && ops' == ops[h := q.cmd] && busy' == busy + {q.buf}
    requires h !in reqs && q.phase.Queued? && q.buf in data && OnDisk(platter, q.blk) && q.cmd.sector == q.blk * (BSIZE / SECTOR)
    requires q.want == if q.cmd.write then data[q.buf] else BlockOn(platter, q.blk)
    requires forall g :: g in reqs ==> reqs[g].buf != q.buf && reqs[g].blk != q.blk
    ensures ReqsOk(info', ops', busy', data, platter, reqs[h := q]) && Apart(reqs[h := q])
  {
    var reqs' := reqs[h := q];
    forall g | g in reqs'
      ensures ReqOk(info', ops', busy', data, platter, g, reqs'[g])
    {
      assert g != h ==> ReqOk(info, ops, busy, data, platter, g, reqs[g]);
    }
    forall f, g | f in reqs' && g in reqs' && f != g
      ensures Distinct(reqs'[f], reqs'[g])
    {
      assert f != h && g != h ==> Distinct(reqs[f], reqs[g]);
    }
  }

  lemma {:induction false} SameChains(desc: seq<Desc>, owner: map<nat, nat>, reqs: map<nat, Req>, h: nat, p: Phase)
    requires |desc| == NUM && ChainsOk(desc, owner, reqs) && h in reqs
    ensures ChainsOk(desc, owner, reqs[h := reqs[h].(phase := p)])
  {
    var reqs' := reqs[h := reqs[h].(phase := p)];
    forall g | g in reqs'
      ensures ChainOk(desc, owner, g, reqs'[g])
    {
      assert ChainOk(desc, owner, g, reqs[g]);
    }
    forall i | i in owner
      ensures InChain(i, owner[i], reqs')
    {
      assert InChain(i, owner[i], reqs);
    }
  }

  /** A request that was read off a ring. */
  lemma {:induction false} PhaseReq(info: seq<Info>, ops: seq<Command>, busy: set<nat>, busy': set<nat>, data: map<nat, Block>, platter: map<nat, Sector>,
                                    reqs: map<nat, Req>, h: nat, p: Phase)
    requires |info| == NUM && |ops| == NUM && ReqsOk(info, ops, busy, data, platter, reqs) && Apart(reqs) && h in reqs
    requires (reqs[h].phase.Queued? && p == Taken && busy' == busy) || (reqs[h].phase.Used? && p == Done && busy' == busy - {reqs[h].buf})
    ensures ReqsOk(info, ops, busy', data, platter, reqs[h := reqs[h].(phase := p)]) && Apart(reqs[h := reqs[h].(phase := p)])
  {
    var reqs' := reqs[h := reqs[h].(phase := p)];
    forall g | g in reqs'
      ensures ReqOk(info, ops, busy', data, platter, g, reqs'[g])
    {
      assert ReqOk(info, ops, busy, data, platter, g, reqs[g]);
      assert g != h ==> Distinct(reqs[g], reqs[h]);
    }
    StillApart(reqs, h, p);
  }

  lemma {:induction false} StillApart(reqs: map<nat, Req>, h: nat, p: Phase)
    requires Apart(reqs) && h in reqs
    ensures Apart(reqs[h := reqs[h].(phase := p)])
  {
    var reqs' := reqs[h := reqs[h].(phase := p)];
    forall f, g | f in reqs' && g in reqs' && f != g
      ensures Distinct(reqs'[f], reqs'[g])
    {
      assert Distinct(reqs[f], reqs[g]);
    }
  }

  lemma {:induction false} CompleteReq(info: seq<Info>, info': seq<Info>, ops: seq<Command>, busy: set<nat>, data: map<nat, Block>, data': map<nat, Block>,
                                       platter: map<nat, Sector>, platter': map<nat, Sector>, reqs: map<nat, Req>, h: nat, p: Phase)
    requires |info| == NUM && |ops| == NUM && ReqsOk(info, ops, busy, data, platter, reqs) && Apart(reqs) && h in reqs
    requires reqs[h].phase == Taken && p.Used? && reqs[h].buf in data && OnDisk(platter, reqs[h].blk) && h < NUM && info' == info[h := Info(info[h].b, 0)]
    requires Moved(reqs[h], data, platter, data', platter')
    ensures ReqsOk(info', ops, busy, data', platter', reqs[h := reqs[h].(phase := p)]) && Apart(reqs[h := reqs[h].(phase := p)])
  {
    var reqs' := reqs[h := reqs[h].(phase := p)];
    forall g | g in reqs'
      ensures ReqOk(info', ops, busy, data', platter', g, reqs'[g])
    {
      assert ReqOk(info, ops, busy, data, platter, g, reqs[g]);
      assert g != h ==> Distinct(reqs[g], reqs[h]);
    }
    StillApart(reqs, h, p);
  }

  lemma {:induction false} ReqGone(info: seq<Info>, info': seq<Info>, ops: seq<Command>, busy: set<nat>, data: map<nat, Block>, platter: map<nat, Sector>,
                                   reqs: map<nat, Req>, h: nat)
    requires |info| == NUM && |ops| == NUM && ReqsOk(info, ops, busy, data, platter, reqs) && Apart(reqs) && h < NUM
    requires info' == info[h := Info(None, info[h].status)]
    ensures ReqsOk(info', ops, busy, data, platter, reqs - {h}) && Apart(reqs - {h})
  {
    var reqs' := reqs - {h};
    forall g | g in reqs'
      ensures ReqOk(info', ops, busy, data, platter, g, reqs'[g])
    {
      assert ReqOk(info, ops, busy, data, platter, g, reqs[g]);
    }
    forall f, g | f in reqs' && g in reqs' && f != g
      ensures Distinct(reqs'[f], reqs'[g])
    {
      assert Distinct(reqs[f], reqs[g]);
    }
  }

  lemma {:induction false} ChainGone(free: seq<bool>, free': seq<bool>, desc: seq<Desc>, desc': seq<Desc>, owner: map<nat, nat>, reqs: map<nat, Req>, h: nat)
    requires |free| == NUM && |free'| == NUM && |desc| == NUM && |desc'| == NUM && FreeOk(free, owner) && ChainsOk(desc, owner, reqs) && h in reqs
    requires forall i :: 0 <= i < NUM && i != h && i != reqs[h].d1 && i != reqs[h].d2 ==> desc'[i] == desc[i]
    requires forall i :: 0 <= i < NUM ==> free'[i] == (free[i] || i == h || i == reqs[h].d1 || i == reqs[h].d2)
    ensures
      var owner' := owner - {h, reqs[h].d1, reqs[h].d2};
      FreeOk(free', owner') && ChainsOk(desc', owner', reqs - {h})
    ensures forall i :: 0 <= i < NUM ==> (free'[i] <==> free[i] || (i in owner && owner[i] == h))
  {
    var owner', reqs' := owner - {h, reqs[h].d1, reqs[h].d2}, reqs - {h};
    assert ChainOk(desc, owner, h, reqs[h]);
    forall i | i in owner
      ensures InChain(i, owner[i], reqs)
    {
    }
    forall i | i in owner'
      ensures InChain(i, owner'[i], reqs')
    {
      assert InChain(i, owner[i], reqs);
    }
    forall g | g in reqs'
      ensures ChainOk(desc', owner', g, reqs'[g])
    {
      assert ChainOk(desc, owner, g, reqs[g]);
    }
  }
}

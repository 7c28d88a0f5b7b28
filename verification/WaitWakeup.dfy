/**
  The sleep of wait2 and the wakeups of exit and reparent as a use of SleepWakeup, with wait_lock
  as the spinlock and every process as a channel. That no parent is left asleep on a zombie
  child follows from there.
 */
module WaitWakeup {
  import opened Blocks
  import opened ExitWait
  import SleepWakeup

  /** wait_lock, and the channel on which process q waits. */
  const WAITLOCK := 0

  function ChanOf(q: nat): (ch: nat)
  {
    q + 1
  }

  function AbsPc(n: nat, initp: nat, p: nat, c: Pc, parent: Option<nat>): (r: SleepWakeup.Pc)
  {
    match c
    case ExitWakeInit(_, j) => if j < n then SleepWakeup.Waking(ChanOf(initp), j) else SleepWakeup.Running
    case ExitWakeParent(j) => if j < n && parent.Some? then SleepWakeup.Waking(ChanOf(parent.value), j) else SleepWakeup.Running
    case WaitCall => SleepWakeup.SleepCalled(ChanOf(p), WAITLOCK)
    case WaitHold => SleepWakeup.SleepHold(ChanOf(p), WAITLOCK)
    case WaitLocked => SleepWakeup.SleepReleased(ChanOf(p), WAITLOCK)
    case WaitSleeping => SleepWakeup.Sleeping(ChanOf(p), WAITLOCK)
    case Asleep => SleepWakeup.Asleep(ChanOf(p), WAITLOCK)
    case WaitWoken => SleepWakeup.Woken(WAITLOCK)
    case WaitAgain => SleepWakeup.Again(WAITLOCK)
    case _ => SleepWakeup.Running
  }

  /** Only sleeps in wait2 count as sleeps here. */
  function AbsProc(n: nat, initp: nat, p: nat, c: Pc, st: PState, l: Option<nat>, parent: Option<nat>): (r: SleepWakeup.Proc)
    ensures SleepWakeup.Napping(r) <==> Sleepish(c, st) || c.WaitSleeping?
  {
    SleepWakeup.Proc(AbsPc(n, initp, p, c, parent), st == SLEEPING && (c.WaitSleeping? || c.Asleep?),
                     if c.WaitSleeping? || c.Asleep? || c.WaitWoken? then ChanOf(p) else 0, l)
  }

  function AbsHeld(w: Option<nat>): (h: map<nat, nat>)
    ensures WAITLOCK in h <==> w.Some?
    ensures w.Some? ==> h[WAITLOCK] == w.value
  {
    if w.Some? then map[WAITLOCK := w.value] else map[]
  }

  function AbsAt(s: State, i: nat): (r: SleepWakeup.Proc)
    requires Sized(s) && i < |s.state|
  {
    AbsProc(|s.state|, s.initp, i, s.pc[i], s.state[i], s.lock[i], s.parent[i])
  }

  function Abs(s: State): (g: SleepWakeup.State)
    requires Sized(s)
    ensures |g.proc| == |s.state| && g.held == AbsHeld(s.waitLock)
    ensures forall i :: 0 <= i < |s.state| ==> g.proc[i] == AbsAt(s, i)
  {
    SleepWakeup.State(seq(|s.state|, i requires 0 <= i < |s.state| => AbsAt(s, i)), AbsHeld(s.waitLock))
  }

  lemma {:induction false} AbsSet(s: State, s': State, p: nat)
    requires Sized(s) && Sized(s') && p < |s.state| == |s'.state|
    requires forall i :: 0 <= i < |s.state| && i != p ==> AbsAt(s', i) == AbsAt(s, i)
    ensures Abs(s') == SleepWakeup.Set(Abs(s), p, AbsAt(s', p), AbsHeld(s'.waitLock))
  {
    hide AbsAt, AbsHeld;
    assert Abs(s').proc == Abs(s).proc[p := AbsAt(s', p)];
  }

  lemma {:induction false} HeldMoves(p: nat)
    ensures AbsHeld(None)[WAITLOCK := p] == AbsHeld(Some(p)) && AbsHeld(Some(p)) - {WAITLOCK} == AbsHeld(None)
  {
  }

  /** A step of sleep and wakeup by process p that changes p and the spinlocks only, or no step at all. */
  ghost predicate OwnStep(p: nat, q: SleepWakeup.Proc, h: map<nat, nat>, q': SleepWakeup.Proc, h': map<nat, nat>)
  {
    || (q' == q && h' == h)
    || (q.pc.Running? && h' == h && ((q.lock == None && q' == q.(lock := Some(p))) || (q.lock == Some(p) && q' == q.(lock := None))))
    || exists a :: SleepWakeup.OwnAction(a) && SleepWakeup.Own(p, q, h, q', h', a)
  }

  lemma {:induction false} OwnSteps(s: State, s': State, p: nat)
    requires Sized(s) && Sized(s') && p < |s.state| == |s'.state|
    requires forall i :: 0 <= i < |s.state| && i != p ==> AbsAt(s', i) == AbsAt(s, i)
    requires OwnStep(p, AbsAt(s, p), AbsHeld(s.waitLock), AbsAt(s', p), AbsHeld(s'.waitLock))
    ensures SleepWakeup.Step(Abs(s), Abs(s'))
  {
    AbsSet(s, s', p);
    var g, g', q, q', h, h' := Abs(s), Abs(s'), AbsAt(s, p), AbsAt(s', p), AbsHeld(s.waitLock), AbsHeld(s'.waitLock);
    hide AbsAt, AbsHeld, SleepWakeup.Own;
    if q' == q && h' == h {
      assert g.proc[p := q] == g.proc;
    } else if q.pc.Running? && h' == h && q.lock == None && q' == q.(lock := Some(p)) {
      assert SleepWakeup.Act(g, g', p, SleepWakeup.TakeLock(p));
    } else if q.pc.Running? && h' == h && q.lock == Some(p) && q' == q.(lock := None) {
      assert SleepWakeup.Act(g, g', p, SleepWakeup.DropLock(p));
    } else {
      var a :| SleepWakeup.OwnAction(a) && SleepWakeup.Own(p, q, h, q', h', a);
      assert SleepWakeup.Act(g, g', p, a);
    }
  }

  /** The step of sleep and wakeup that a move of p is, where it changes a spinlock or p's part in them. */
  function AbsAction(p: nat, a: Action): (g: SleepWakeup.Action)
    ensures SleepWakeup.OwnAction(g)
  {
    match a
    case CallSleep => SleepWakeup.CallSleep(ChanOf(p), WAITLOCK)
    case SleepLock => SleepWakeup.SleepLock
    case SleepRelease => SleepWakeup.SleepRelease
    case SleepSet => SleepWakeup.SleepSet
    case SleepSwitch => SleepWakeup.SleepSwitch
    case Resume => SleepWakeup.Resume
    case WakeUnlock => SleepWakeup.WokenUnlock
    case WaitRelock => SleepWakeup.Relock
    case ExitRelease => SleepWakeup.Release(WAITLOCK)
    case WaitFault => SleepWakeup.Release(WAITLOCK)
    case WaitNone => SleepWakeup.Release(WAITLOCK)
    case WaitKilled => SleepWakeup.Release(WAITLOCK)
    case _ => SleepWakeup.Acquire(WAITLOCK)
  }

  /** The moves that leave the spinlocks and p's part in sleep and wakeup alone, but perhaps not p's own lock. */
  predicate Apart(a: Action)
  {
    a in {Yield, Dispatch, Block, Unblock, BecomeZombie, ExitSwitch, ScanNext}
  }

  lemma {:induction false} ApartSimulates(s: State, p: nat, a: Action)
    requires Sized(s) && p < |s.state| && Moves(a) && Apart(a) && Move(s, p, a).Some? && AtOk(p, s.initp, Here(s, p))
    ensures var m := Move(s, p, a).value;
      OwnStep(p, AbsAt(s, p), AbsHeld(s.waitLock), AbsProc(|s.state|, s.initp, p, m.pc, m.state, m.lock, s.parent[p]), AbsHeld(m.waitLock))
  {
    hide AbsHeld;
  }

  lemma {:induction false} PlaceSimulates(s: State, p: nat, a: Action)
    requires Sized(s) && p < |s.state| && Moves(a) && !Apart(a) && Move(s, p, a).Some? && AtOk(p, s.initp, Here(s, p))
    ensures var m := Move(s, p, a).value;
      OwnStep(p, AbsAt(s, p), AbsHeld(s.waitLock), AbsProc(|s.state|, s.initp, p, m.pc, m.state, m.lock, s.parent[p]), AbsHeld(m.waitLock))
  {
    HeldMoves(p);
    hide AbsHeld, OwnStep;
    var m := Move(s, p, a).value;
    var q, q' := AbsAt(s, p), AbsProc(|s.state|, s.initp, p, m.pc, m.state, m.lock, s.parent[p]);
    assert SleepWakeup.Own(p, q, AbsHeld(s.waitLock), q', AbsHeld(m.waitLock), AbsAction(p, a));
    IsOwnStep(p, q, AbsHeld(s.waitLock), q', AbsHeld(m.waitLock), AbsAction(p, a));
  }

  lemma {:induction false} IsOwnStep(p: nat, q: SleepWakeup.Proc, h: map<nat, nat>, q': SleepWakeup.Proc, h': map<nat, nat>, a: SleepWakeup.Action)
    requires SleepWakeup.OwnAction(a) && SleepWakeup.Own(p, q, h, q', h', a)
    ensures OwnStep(p, q, h, q', h')
  {
  }

  /** A move is a step of sleep and wakeup, or none. */
  lemma {:induction false} MoveSimulates(s: State, s': State, p: nat, a: Action)
    requires Inv(s) && Moves(a) && Act(s, s', p, a)
    ensures Sized(s') && SleepWakeup.Step(Abs(s), Abs(s'))
  {
    hide LocksOk, StatesOk, ParentsOk, ForksOk, ReparentOk, ScanOk, KidsOk, PidsOk, AtOk, Move, OwnStep, AbsHeld, AbsProc, Abs, Apart;
    About(s, p);
    if Apart(a) {
      ApartSimulates(s, p, a);
    } else {
      PlaceSimulates(s, p, a);
    }
    OwnSteps(s, s', p);
  }

  predicate OnChan(c: Pc)
  {
    c.WaitSleeping? || c.Asleep? || c.WaitWoken?
  }

  /** Process p goes on to c, in or out of a loop of wakeup. */
  lemma {:induction false} GotoAbs(s: State, p: nat, c: Pc)
    requires Sized(s) && p < |s.state| && !OnChan(s.pc[p]) && !OnChan(c)
    ensures
      var g := Abs(s);
      Abs(Goto(s, p, c, s.waitLock)) == SleepWakeup.Set(g, p, g.proc[p].(pc := AbsPc(|s.state|, s.initp, p, c, s.parent[p])), g.held)
  {
    AbsSet(s, Goto(s, p, c, s.waitLock), p);
  }

  lemma {:induction false} WakeAbs(s: State, j: nat, x: nat)
    requires Inv(s) && j < |s.state| && s.lock[j] == None
    ensures
      var g := Abs(s);
      Abs(Wake(s, j, x)) == SleepWakeup.Set(g, j, g.proc[j].(asleep := g.proc[j].asleep && g.proc[j].chan != ChanOf(x)), g.held)
  {
    About(s, j);
    hide Inv;
    AbsSet(s, Wake(s, j, x), j);
  }

  /** One turn of wakeup's loop: process j is woken if it waits for x, and p goes on. */
  lemma {:induction false} WakeSimulates(s: State, s': State, p: nat, x: nat, j: nat, c: Pc)
    requires Inv(s) && p < |s.state| && j < |s.state| && !OnChan(s.pc[p]) && !OnChan(c)
    requires AbsPc(|s.state|, s.initp, p, s.pc[p], s.parent[p]) == SleepWakeup.Waking(ChanOf(x), j)
    requires AbsPc(|s.state|, s.initp, p, c, s.parent[p]) == SleepWakeup.AfterWake(|s.state|, ChanOf(x), j)
    requires if j == p then s' == Goto(s, p, c, s.waitLock) else s.lock[j] == None && s' == Goto(Wake(s, j, x), p, c, s.waitLock)
    ensures SleepWakeup.Step(Abs(s), Abs(s'))
  {
    hide LocksOk, StatesOk, ParentsOk, ForksOk, ReparentOk, ScanOk, KidsOk, PidsOk, AbsPc, Wake, Goto, Abs, AbsHeld;
    if j == p {
      GotoAbs(s, p, c);
    } else {
      WakeAbs(s, j, x);
      WakeKeeps(s, j, x);
      GotoAbs(Wake(s, j, x), p, c);
    }
    assert SleepWakeup.Act(Abs(s), Abs(s'), p, SleepWakeup.WakeOne);
  }

  /** A place without a part in sleep or wakeup. */
  predicate Aside(c: Pc)
  {
    Plain(c) || c.WaitScan? || c.ExitReparent?
  }

  lemma {:induction false} AsideAbs(s: State, i: nat)
    requires Sized(s) && i < |s.state| && Aside(s.pc[i])
    ensures AbsAt(s, i) == SleepWakeup.Proc(SleepWakeup.Running, false, 0, s.lock[i])
  {
  }

  /** While p changes process n, only the lock of n and the spinlocks may change for sleep and wakeup. */
  lemma {:induction false} ChangedAbs(s: State, s': State, p: nat, c: Pc, n: nat, cn: Pc, t: PState, pr: Option<nat>, ch: Chan, l: Option<nat>, w: Option<nat>)
    requires Sized(s) && Sized(s') && p < |s.state| == |s'.state| && n < |s.state| && n != p && Aside(s.pc[p]) && Aside(c) && Aside(s.pc[n]) && Aside(cn)
    requires s' == Changed(s.(pid := s'.pid, killed := s'.killed, nextpid := s'.nextpid, reaped := s'.reaped), p, c, n, cn, t, pr, ch, l, w)
    ensures Abs(s') == SleepWakeup.Set(Abs(s), n, SleepWakeup.Proc(SleepWakeup.Running, false, 0, l), AbsHeld(w))
    ensures Abs(s).proc[p].pc.Running? && Abs(s).proc[n] == SleepWakeup.Proc(SleepWakeup.Running, false, 0, s.lock[n])
  {
    hide AbsProc, AbsHeld, Abs, Aside;
    AsideAbs(s, p);
    AsideAbs(s', p);
    AsideAbs(s, n);
    AsideAbs(s', n);
    assert forall i :: 0 <= i < |s.state| && i != p && i != n ==> AbsAt(s', i) == AbsAt(s, i);
    hide AbsAt;
    AbsSet(s, s', n);
  }

  lemma {:induction false} ForkUnlockSimulates(s: State, s': State, p: nat, a: Action)
    requires Inv(s) && Act(s, s', p, a) && (a == ForkFail || a == ForkUnlock)
    ensures Sized(s') && SleepWakeup.Step(Abs(s), Abs(s'))
  {
    hide LocksOk, StatesOk, ParentsOk, ForksOk, ReparentOk, ScanOk, KidsOk, PidsOk, Abs;
    About(s, p);
    ForkedProc(s, p);
    LockedByForker(s, p);
    var n := s.pc[p].n;
    ChangedAbs(s, s', p, s'.pc[p], n, s'.pc[n], s'.state[n], s'.parent[n], s'.chan[n], None, s.waitLock);
    assert SleepWakeup.Act(Abs(s), Abs(s'), p, SleepWakeup.DropLock(n));
  }

  lemma {:induction false} LockedByForker(s: State, p: nat)
    requires Inv(s) && p < |s.state| && s.pc[p].ForkHold?
    ensures s.pc[p].n < |s.state| && s.lock[s.pc[p].n] == Some(p)
  {
    ForkedProc(s, p);
    hide StatesOk, ParentsOk, ForksOk, ReparentOk, ScanOk, KidsOk, PidsOk;
    assert HoldsLock(s.pc[p], p, s.pc[p].n);
  }

  lemma {:induction false} ForkLinkSimulates(s: State, s': State, p: nat, a: Action)
    requires Inv(s) && Act(s, s', p, a) && (a == ForkParent || a == ForkRun)
    ensures Sized(s') && SleepWakeup.Step(Abs(s), Abs(s'))
  {
    hide LocksOk, StatesOk, ParentsOk, ForksOk, ReparentOk, ScanOk, KidsOk, PidsOk, Abs;
    About(s, p);
    ForkedProc(s, p);
    LockOfForked(s, p);
    var n := s.pc[p].n;
    ChangedAbs(s, s', p, s'.pc[p], n, s'.pc[n], s'.state[n], s'.parent[n], s'.chan[n], None, s.waitLock);
    assert Abs(s).proc[n := Abs(s).proc[n]] == Abs(s).proc;
  }

  lemma {:induction false} AllocSimulates(s: State, s': State, p: nat, n: nat)
    requires Inv(s) && Act(s, s', p, Allocproc(n))
    ensures Sized(s') && SleepWakeup.Step(Abs(s), Abs(s'))
  {
    hide LocksOk, StatesOk, ParentsOk, ForksOk, ReparentOk, ScanOk, KidsOk, PidsOk, Abs;
    About(s, p);
    About(s, n);
    ChangedAbs(s, s', p, ForkHold(n), n, s.pc[n], USED, s.parent[n], s.chan[n], Some(p), s.waitLock);
    assert SleepWakeup.Act(Abs(s), Abs(s'), p, SleepWakeup.TakeLock(n));
  }

  lemma {:induction false} ReapSimulates(s: State, s': State, p: nat)
    requires Inv(s) && Act(s, s', p, Reap)
    ensures Sized(s') && SleepWakeup.Step(Abs(s), Abs(s'))
  {
    hide LocksOk, StatesOk, ParentsOk, ForksOk, ReparentOk, ScanOk, KidsOk, PidsOk, Abs;
    About(s, p);
    About(s, s.pc[p].i);
    HeldMoves(p);
    ChangedAbs(s, s', p, User, s.pc[p].i, Idle, UNUSED, None, NoChan, None, None);
    assert Abs(s).proc[s.pc[p].i := Abs(s).proc[s.pc[p].i]] == Abs(s).proc;
    assert SleepWakeup.Act(Abs(s), Abs(s'), p, SleepWakeup.Release(WAITLOCK));
  }

  lemma {:induction false} KillSimulates(s: State, s': State, p: nat, k: nat)
    requires Inv(s) && Act(s, s', p, Kill(k))
    ensures Sized(s') && SleepWakeup.Step(Abs(s), Abs(s'))
  {
    hide LocksOk, StatesOk, ParentsOk, ForksOk, ReparentOk, ScanOk, KidsOk, PidsOk, Abs, AbsHeld;
    AsideAbs(s, p);
    assert forall i :: 0 <= i < |s.state| && i != k ==> AbsAt(s', i) == AbsAt(s, i);
    assert AbsAt(s', k) == AbsAt(s, k).(asleep := false);
    hide AbsAt;
    AbsSet(s, s', k);
    assert SleepWakeup.Act(Abs(s), Abs(s'), p, SleepWakeup.Kill(k));
  }

  /** Only the holder of wait_lock wakes its parent. */
  lemma {:induction false} NoOtherWaker(s: State, p: nat, i: nat)
    requires Inv(s) && p < |s.state| && i < |s.state| && s.waitLock == Some(p) && i != p
    ensures !s.pc[i].ExitWakeParent?
  {
    About(s, i);
  }

  /** A child that goes to init is not waking its parent up. */
  lemma {:induction false} GivenAbs(s: State, p: nat, i: nat)
    requires Inv(s) && p < |s.state| && i < |s.state| && s.pc[p] == ExitReparent(i) && s.parent[i] == Some(p)
    ensures var s1 := s.(parent := s.parent[i := Some(s.initp)]); Sized(s1) && Abs(s1) == Abs(s)
  {
    hide LocksOk, StatesOk, ParentsOk, ForksOk, ReparentOk, ScanOk, KidsOk, PidsOk, AbsHeld;
    About(s, p);
    if i != p {
      NoOtherWaker(s, p, i);
    }
    var s1 := s.(parent := s.parent[i := Some(s.initp)]);
    assert forall k :: 0 <= k < |s.state| ==> AbsAt(s1, k) == AbsAt(s, k);
    hide AbsAt;
    assert Abs(s1).proc == Abs(s).proc;
  }

  lemma {:induction false} ParentThere(s: State, p: nat)
    requires Inv(s) && p < |s.state| && s.pc[p].ExitReparent?
    ensures s.parent[p].Some?
  {
    About(s, p);
  }

  lemma {:induction false} ReparentSimulates(s: State, s': State, p: nat)
    requires Inv(s) && Act(s, s', p, Reparent)
    ensures Sized(s') && SleepWakeup.Step(Abs(s), Abs(s'))
  {
    hide LocksOk, StatesOk, ParentsOk, ForksOk, ReparentOk, ScanOk, KidsOk, PidsOk, Abs, AbsHeld, Goto;
    AsideAbs(s, p);
    hide AbsProc;
    var i := s.pc[p].i;
    if i >= |s.state| {
      ParentThere(s, p);
      GotoAbs(s, p, ExitWakeParent(0));
      assert SleepWakeup.Act(Abs(s), Abs(s'), p, SleepWakeup.CallWakeup(ChanOf(s.parent[p].value)));
    } else if s.parent[i] == Some(p) {
      GivenAbs(s, p, i);
      GotoAbs(s.(parent := s.parent[i := Some(s.initp)]), p, ExitWakeInit(i, 0));
      assert SleepWakeup.Act(Abs(s), Abs(s'), p, SleepWakeup.CallWakeup(ChanOf(s.initp)));
    } else {
      GotoAbs(s, p, ExitReparent(i + 1));
      assert Abs(s).proc[p := Abs(s).proc[p]] == Abs(s).proc;
    }
  }

  lemma {:induction false} WakeInitSimulates(s: State, s': State, p: nat)
    requires Inv(s) && Act(s, s', p, WakeInit)
    ensures Sized(s') && SleepWakeup.Step(Abs(s), Abs(s'))
  {
    hide LocksOk, StatesOk, ParentsOk, ForksOk, ReparentOk, ScanOk, KidsOk, PidsOk, Abs, AbsHeld, Wake, Goto;
    var i, j := s.pc[p].i, s.pc[p].j;
    if j >= |s.state| {
      About(s, p);
      GotoAbs(s, p, ExitReparent(i + 1));
      assert Abs(s).proc[p := Abs(s).proc[p]] == Abs(s).proc;
    } else {
      hide SleepWakeup.Step;
      WakeSimulates(s, s', p, s.initp, j, ExitWakeInit(i, j + 1));
    }
  }

  lemma {:induction false} WakeParentSimulates(s: State, s': State, p: nat)
    requires Inv(s) && Act(s, s', p, WakeParent)
    ensures Sized(s') && SleepWakeup.Step(Abs(s), Abs(s'))
  {
    hide LocksOk, StatesOk, ParentsOk, ForksOk, ReparentOk, ScanOk, KidsOk, PidsOk, Abs, AbsHeld, Wake, Goto, SleepWakeup.Step;
    WakeSimulates(s, s', p, s.parent[p].value, s.pc[p].j, ExitWakeParent(s.pc[p].j + 1));
  }

  /** Every step is one step of sleep and wakeup, or none. */
  lemma {:induction false} Simulates(s: State, s': State, p: nat, a: Action)
    requires Inv(s) && Act(s, s', p, a)
    ensures Sized(s') && SleepWakeup.Step(Abs(s), Abs(s'))
  {
    hide Act, Inv, SleepWakeup.Step, Abs;
    match a
    case Kill(k) => KillSimulates(s, s', p, k);
    case Allocproc(n) => AllocSimulates(s, s', p, n);
    case ForkFail => ForkUnlockSimulates(s, s', p, a);
    case ForkUnlock => ForkUnlockSimulates(s, s', p, a);
    case ForkParent => ForkLinkSimulates(s, s', p, a);
    case ForkRun => ForkLinkSimulates(s, s', p, a);
    case Reparent => ReparentSimulates(s, s', p);
    case WakeInit => WakeInitSimulates(s, s', p);
    case WakeParent => WakeParentSimulates(s, s', p);
    case Reap => ReapSimulates(s, s', p);
    case _ => MoveSimulates(s, s', p, a);
  }

  ghost function AbsRun(run: seq<State>): (g: seq<SleepWakeup.State>)
    requires forall i :: 0 <= i < |run| ==> Sized(run[i])
    ensures |g| == |run| && forall i :: 0 <= i < |run| ==> g[i] == Abs(run[i])
  {
    seq(|run|, i requires 0 <= i < |run| => Abs(run[i]))
  }

  lemma {:induction false} RunSimulates(run: seq<State>)
    requires Run(run)
    ensures SleepWakeup.Run(AbsRun(run))
  {
    StartSimulates(run[0]);
    hide Abs, Act, Start, SleepWakeup.Step, SleepWakeup.Start;
    forall i | 0 <= i < |run| - 1
      ensures SleepWakeup.Step(AbsRun(run)[i], AbsRun(run)[i + 1])
    {
      RunInv(run, i);
      assert Step(run[i], run[i + 1]);
      var p, a :| Act(run[i], run[i + 1], p, a);
      Simulates(run[i], run[i + 1], p, a);
    }
  }

  lemma {:induction false} StartSimulates(s: State)
    requires Start(s)
    ensures SleepWakeup.Start(Abs(s))
  {
    assert forall p :: 0 <= p < |s.pc| ==> s.pc[p] == User || s.pc[p] == Idle;
  }

  // ---------------------------------------------------------------- nobody sleeps on a zombie child

  predicate ZombieChild(s: State, c: nat, q: nat)
    requires Sized(s)
  {
    c < |s.state| && s.parent[c] == Some(q) && s.state[c] == ZOMBIE
  }

  predicate SleepsAt(s: State, q: nat)
    requires Sized(s)
  {
    q < |s.state| && Sleepish(s.pc[q], s.state[q])
  }

  lemma {:induction false} OthersAwake(s: State, s': State, p: nat, a: Action, q: nat)
    requires Sized(s) && Sized(s') && Act(s, s', p, a) && q != p && SleepsAt(s', q)
    ensures SleepsAt(s, q)
  {
    hide Move;
  }

  lemma {:induction false} OnlyByCall(s: State, s': State, q: nat, a: Action)
    requires Sized(s) && Sized(s') && Act(s, s', q, a) && !SleepsAt(s, q) && SleepsAt(s', q)
    ensures a == CallSleep && q < |s.state| == |s'.state|
  {
    hide Move;
    if Moves(a) {
      OnlyByCallMove(s, s', q, a);
    }
  }

  lemma {:induction false} OnlyByCallMove(s: State, s': State, q: nat, a: Action)
    requires Sized(s) && Sized(s') && Moves(a) && Act(s, s', q, a) && !SleepsAt(s, q) && SleepsAt(s', q)
    ensures a == CallSleep && q < |s.state| == |s'.state|
  {
  }

  lemma {:induction false} CallsSleep(s: State, s': State, q: nat, c: nat)
    requires Inv(s) && Sized(s') && q < |s.state| == |s'.state| && Act(s, s', q, CallSleep)
    ensures s'.pc[q] == WaitCall && !ZombieChild(s', c, q) && s'.waitLock == Some(q)
  {
    About(s, q);
  }

  /** A process calls sleep in wait2 when it has scanned all its children and met no zombie. */
  lemma {:induction false} FallsAsleep(s: State, s': State, q: nat, c: nat)
    requires Inv(s) && Step(s, s') && Sized(s') && !SleepsAt(s, q) && SleepsAt(s', q)
    ensures s'.pc[q] == WaitCall && !ZombieChild(s', c, q) && s'.waitLock == Some(q)
  {
    hide Act, SleepsAt, ZombieChild;
    var p, a :| Act(s, s', p, a);
    if p != q {
      OthersAwake(s, s', p, a, q);
    } else {
      OnlyByCall(s, s', q, a);
      CallsSleep(s, s', q, c);
    }
  }

  /** Whoever is in sleep in wait2 called it at some moment, with no zombie child, and has been in it since. */
  lemma {:induction false} NapStart(run: seq<State>, k: nat, q: nat, c: nat) returns (a: nat)
    requires Run(run) && k < |run| && SleepsAt(run[k], q)
    ensures a <= k && q < |run[a].pc| && run[a].pc[q] == WaitCall && run[a].waitLock == Some(q) && !ZombieChild(run[a], c, q)
    ensures forall t :: a <= t <= k ==> SleepsAt(run[t], q)
    decreases k
  {
    hide Step, Inv, SleepsAt, ZombieChild, Start;
    if k == 0 {
      StartAwake(run[0], q);
    } else {
      RunInv(run, k - 1);
      assert Step(run[k - 1], run[k - 1 + 1]);
      if SleepsAt(run[k - 1], q) {
        a := NapStart(run, k - 1, q, c);
      } else {
        FallsAsleep(run[k - 1], run[k], q, c);
        a := k;
        AsleepThere(run[k], q);
      }
    }
  }

  lemma {:induction false} AsleepThere(s: State, q: nat)
    requires Sized(s) && SleepsAt(s, q)
    ensures q < |s.state|
  {
  }

  lemma {:induction false} StartAwake(s: State, q: nat)
    requires Start(s)
    ensures !SleepsAt(s, q)
  {
  }

  /** Process c becomes a zombie child of q by exiting, or by going to init as a zombie. */
  predicate BecomesByExit(s: State, s': State, c: nat, q: nat)
    requires Sized(s) && Sized(s')
  {
    c < |s.state| == |s'.state| && s.pc[c].ExitWakeParent? && s.parent[c] == Some(q) && s'.pc[c] == ExitZombie
  }

  predicate BecomesByReparent(s: State, s': State, e: nat, c: nat, q: nat)
    requires Sized(s) && Sized(s')
  {
    e < |s.state| == |s'.state| && s.pc[e] == ExitReparent(c) && s'.pc[e] == ExitWakeInit(c, 0) && q == s'.initp
  }

  lemma {:induction false} BecomesByMove(s: State, s': State, p: nat, a: Action, c: nat, q: nat)
    requires Sized(s) && Act(s, s', p, a) && Sized(s') && Moves(a) && !ZombieChild(s, c, q) && ZombieChild(s', c, q)
    ensures BecomesByExit(s, s', c, q)
  {
  }

  lemma {:induction false} BecomesByWakeup(s: State, s': State, p: nat, a: Action, c: nat, q: nat)
    requires Sized(s) && Act(s, s', p, a) && Sized(s') && (a == Reparent || a == WakeInit || a == WakeParent) && !ZombieChild(s, c, q) && ZombieChild(s', c, q)
    ensures BecomesByReparent(s, s', p, c, q)
  {
  }

  lemma {:induction false} NotByKill(s: State, s': State, p: nat, k: nat, c: nat, q: nat)
    requires Sized(s) && Act(s, s', p, Kill(k)) && Sized(s') && !ZombieChild(s, c, q)
    ensures !ZombieChild(s', c, q)
  {
  }

  /** A process that is being made is no zombie. */
  lemma {:induction false} NotByFork(s: State, s': State, p: nat, a: Action, c: nat, q: nat)
    requires Sized(s) && Act(s, s', p, a) && Sized(s') && !ZombieChild(s, c, q) && (a.Allocproc? || a == ForkFail || a == ForkUnlock || a == ForkParent || a == ForkRun || a == Reap)
    requires Forking(s.pc[p]) ==> s.pc[p].n < |s.state| && s.state[s.pc[p].n] == USED
    ensures !ZombieChild(s', c, q)
  {
  }

  lemma {:induction false} NotByOthers(s: State, s': State, p: nat, a: Action, c: nat, q: nat)
    requires Inv(s) && p < |s.state| && Act(s, s', p, a) && Sized(s') && !Moves(a) && a != Reparent && a != WakeInit && a != WakeParent && !ZombieChild(s, c, q)
    ensures !ZombieChild(s', c, q)
  {
    hide LocksOk, StatesOk, ParentsOk, ForksOk, ReparentOk, ScanOk, KidsOk, PidsOk, Act, ZombieChild;
    if Forking(s.pc[p]) {
      ForkedProc(s, p);
    }
    if a.Kill? {
      NotByKill(s, s', p, a.k, c, q);
    } else {
      NotByFork(s, s', p, a, c, q);
    }
  }

  lemma {:induction false} Acting(s: State, s': State, p: nat, a: Action)
    requires Sized(s) && Act(s, s', p, a)
    ensures p < |s.state|
  {
    hide Move;
  }

  lemma {:induction false} Becomes(s: State, s': State, c: nat, q: nat) returns (e: nat)
    requires Inv(s) && Step(s, s') && Sized(s') && !ZombieChild(s, c, q) && ZombieChild(s', c, q)
    ensures BecomesByExit(s, s', c, q) || BecomesByReparent(s, s', e, c, q)
  {
    hide Act, ZombieChild, BecomesByExit, BecomesByReparent;
    var p, a :| Act(s, s', p, a);
    Acting(s, s', p, a);
    e := p;
    if Moves(a) {
      BecomesByMove(s, s', p, a, c, q);
    } else if a == Reparent || a == WakeInit || a == WakeParent {
      BecomesByWakeup(s, s', p, a, c, q);
    } else {
      NotByOthers(s, s', p, a, c, q);
    }
  }

  /** The last moment at which c became a zombie child of q. */
  lemma {:induction false} LastBecame(run: seq<State>, a: nat, k: nat, c: nat, q: nat) returns (m: nat, e: nat)
    requires Run(run) && a <= k < |run| && !ZombieChild(run[a], c, q) && ZombieChild(run[k], c, q)
    ensures a <= m < k && (BecomesByExit(run[m], run[m + 1], c, q) || BecomesByReparent(run[m], run[m + 1], e, c, q))
    decreases k
  {
    hide Step, Inv, Start, ZombieChild, BecomesByExit, BecomesByReparent;
    assert Step(run[k - 1], run[k - 1 + 1]);
    if ZombieChild(run[k - 1], c, q) {
      m, e := LastBecame(run, a, k - 1, c, q);
    } else {
      RunInv(run, k - 1);
      m := k - 1;
      e := Becomes(run[m], run[k], c, q);
    }
  }

  /** A process in wakeup(p->parent) has been in it, for the same parent, since it called it. */
  lemma {:induction false} LoopBack(s: State, s': State, c: nat)
    requires Inv(s) && Step(s, s') && Sized(s') && c < |s'.pc| && s'.pc[c].ExitWakeParent? && s'.pc[c].j > 0
    ensures c < |s.pc| && s.pc[c].ExitWakeParent? && s.parent[c] == s'.parent[c]
  {
    hide Act;
    var p, a :| Act(s, s', p, a);
    LoopBackBy(s, s', c, p, a);
  }

  lemma {:induction false} LoopBackBy(s: State, s': State, c: nat, p: nat, a: Action)
    requires Inv(s) && Act(s, s', p, a) && Sized(s') && c < |s'.pc| && s'.pc[c].ExitWakeParent? && s'.pc[c].j > 0
    ensures c < |s.pc| && s.pc[c].ExitWakeParent? && s.parent[c] == s'.parent[c]
  {
    hide Act, LocksOk, StatesOk, ParentsOk, ForksOk, ReparentOk, ScanOk, KidsOk, PidsOk;
    if p == c {
      LoopBackOwn(s, s', c, a);
    } else {
      OthersElsewhere(s, s', p, a, c);
      About(s, p);
      About(s, c);
      OthersKeep(s, s', p, a, c);
    }
  }

  lemma {:induction false} LoopBackOwn(s: State, s': State, c: nat, a: Action)
    requires Sized(s) && Act(s, s', c, a) && Sized(s') && c < |s'.pc| && s'.pc[c].ExitWakeParent? && s'.pc[c].j > 0
    ensures c < |s.pc| && s.pc[c].ExitWakeParent? && s.parent[c] == s'.parent[c]
  {
    hide Move;
    if Moves(a) {
      LoopBackMove(s, s', c, a);
    }
  }

  lemma {:induction false} LoopBackMove(s: State, s': State, c: nat, a: Action)
    requires Sized(s) && Moves(a) && Act(s, s', c, a) && Sized(s') && c < |s'.pc| && s'.pc[c].ExitWakeParent?
    ensures c < |s.pc| && s.pc[c].ExitWakeParent? && s.parent[c] == s'.parent[c]
  {
  }

  lemma {:induction false} OthersElsewhere(s: State, s': State, p: nat, a: Action, c: nat)
    requires Sized(s) && Act(s, s', p, a) && Sized(s') && c < |s'.pc| && c != p
    ensures p < |s.pc| && c < |s.pc| && (s'.pc[c] == s.pc[c] || s'.pc[c].Idle? || s'.pc[c].User?)
  {
    hide Move;
  }

  /** Nobody else changes the parent of a process that holds wait_lock. */
  lemma {:induction false} OthersKeep(s: State, s': State, p: nat, a: Action, c: nat)
    requires Sized(s) && Act(s, s', p, a) && Sized(s') && c < |s.pc| && c != p
    requires s.waitLock == Some(c) && !HoldsWait(s.pc[p]) && s'.pc[c].ExitWakeParent?
    ensures s'.parent[c] == s.parent[c]
  {
    hide Move;
  }

  lemma {:induction false} LoopStart(run: seq<State>, a: nat, m: nat, c: nat, q: nat) returns (w: nat)
    requires Run(run) && a <= m < |run| && c < |run[m].pc| && run[m].pc[c].ExitWakeParent? && run[m].parent[c] == Some(q)
    requires run[a].waitLock != Some(c)
    ensures a < w <= m && c < |run[w].pc| && run[w].pc[c] == ExitWakeParent(0) && run[w].parent[c] == Some(q)
    decreases m
  {
    hide Step, Inv, Start, Act;
    RunInv(run, m);
    InLoop(run[m], c);
    if run[m].pc[c].j == 0 {
      w := m;
    } else {
      RunInv(run, m - 1);
      assert Step(run[m - 1], run[m - 1 + 1]);
      LoopBack(run[m - 1], run[m], c);
      w := LoopStart(run, a, m - 1, c, q);
    }
  }

  lemma {:induction false} InLoop(s: State, c: nat)
    requires Inv(s) && c < |s.pc| && (s.pc[c].ExitWakeParent? || s.pc[c].ExitReparent?)
    ensures s.waitLock == Some(c) && !SleepsAt(s, c)
  {
    About(s, c);
  }

  /** The holder of wait_lock is in wakeup(q) and has not come past q. */
  ghost predicate WakingUp(s: State, q: nat)
    requires Sized(s)
  {
    s.waitLock.Some? && s.waitLock.value < |s.state| && var e := s.waitLock.value;
    || (s.pc[e].ExitWakeInit? && q == s.initp && s.pc[e].j <= q)
    || (s.pc[e].ExitWakeParent? && s.parent[e] == Some(q) && s.pc[e].j <= q)
  }

  lemma {:induction false} WakerThere(s: State, e: nat, q: nat)
    requires Inv(s) && SleepWakeup.WillReach(Abs(s), e, q, ChanOf(q))
    ensures WakingUp(s, q) && !s.pc[e].ExitZombie?
  {
    About(s, e);
  }

  lemma {:induction false} SleeperAt(s: State, q: nat)
    requires Sized(s) && SleepsAt(s, q)
    ensures SleepWakeup.InSleep(Abs(s), q)
    ensures s.pc[q] == WaitCall ==> SleepWakeup.SleepsOn(Abs(s), q, ChanOf(q), WAITLOCK)
  {
  }

  /** A child that exits while its parent q sleeps has held wait_lock, and been through wakeup(q). */
  lemma {:induction false} NotByExit(run: seq<State>, a: nat, m: nat, c: nat, q: nat)
    requires Run(run) && a <= m < |run| - 1 && q < |run[a].pc| && run[a].pc[q] == WaitCall && run[a].waitLock == Some(q)
    requires forall t :: a <= t <= m + 1 ==> SleepsAt(run[t], q)
    ensures !BecomesByExit(run[m], run[m + 1], c, q)
  {
    hide Run, Inv, Abs, SleepsAt, SleepWakeup.Run, SleepWakeup.SleepsOn, SleepWakeup.InSleep, SleepWakeup.InWakeup, SleepWakeup.WillReach, WakingUp;
    RunSized(run);
    if BecomesByExit(run[m], run[m + 1], c, q) {
      RunInv(run, m);
      RunInv(run, m + 1);
      InLoop(run[m], c);
      var w := LoopStart(run, a, m, c, q);
      RunInv(run, w);
      InLoop(run[w], c);
      AtLoopStart(run[w], c, q);
      StillReaching(run, a, w, w, m + 1, q, c);
      WakerThere(run[m + 1], c, q);
    }
  }

  lemma {:induction false} RunSized(run: seq<State>)
    requires Run(run)
    ensures forall i :: 0 <= i < |run| ==> Sized(run[i])
  {
  }

  lemma {:induction false} AtLoopStart(s: State, e: nat, q: nat)
    requires Sized(s) && e < |s.pc| && ((s.pc[e] == ExitWakeParent(0) && s.parent[e] == Some(q)) || (s.pc[e].ExitWakeInit? && s.pc[e].j == 0 && s.initp == q))
    ensures SleepWakeup.InWakeup(Abs(s), e) && Abs(s).proc[e].pc == SleepWakeup.Waking(ChanOf(q), 0)
  {
  }

  /** What sleep and wakeup promise of a process e that holds wait_lock at b and calls wakeup(q) at c. */
  lemma {:induction false} StillReaching(run: seq<State>, a: nat, b: nat, c: nat, d: nat, q: nat, e: nat)
    requires Run(run) && a <= b <= c <= d < |run| && (forall i :: 0 <= i < |run| ==> Sized(run[i]))
    requires q < |run[a].pc| && run[a].pc[q] == WaitCall && forall t :: a <= t <= d ==> SleepsAt(run[t], q)
    requires run[b].waitLock == Some(e) && e != q
    requires SleepWakeup.InWakeup(Abs(run[c]), e) && Abs(run[c]).proc[e].pc == SleepWakeup.Waking(ChanOf(q), 0)
    ensures SleepWakeup.WillReach(Abs(run[d]), e, q, ChanOf(q))
  {
    hide Run, Inv, Abs, SleepsAt, SleepWakeup.Run, SleepWakeup.SleepsOn, SleepWakeup.InSleep, SleepWakeup.InWakeup, SleepWakeup.WillReach;
    RunSimulates(run);
    SleeperAt(run[a], q);
    forall t | a < t <= d
      ensures SleepWakeup.InSleep(AbsRun(run)[t], q)
    {
      SleeperAt(run[t], q);
    }
    SleepWakeup.StillToReach(AbsRun(run), a, b, c, d, q, e, ChanOf(q), WAITLOCK);
  }

  /**
    In every state of every run, a process that is in sleep in wait2 and has a zombie child is one
    that the holder of wait_lock is just waking up: no wakeup of exit or reparent is lost.
   */
  lemma {:induction false} ZombieParentWoken(run: seq<State>, k: nat, c: nat, q: nat)
    requires Run(run) && k < |run| && Sized(run[k]) && SleepsAt(run[k], q) && ZombieChild(run[k], c, q)
    ensures WakingUp(run[k], q)
  {
    hide Run, Inv, Abs, SleepsAt, ZombieChild, SleepWakeup.WillReach, SleepWakeup.InWakeup, WakingUp;
    RunSized(run);
    var a := NapStart(run, k, q, c);
    var m, e := LastBecame(run, a, k, c, q);
    NotByExit(run, a, m, c, q);
    RunInv(run, m);
    RunInv(run, k);
    InLoop(run[m], e);
    AtLoopStart(run[m + 1], e, q);
    StillReaching(run, a, m, m + 1, k, q, e);
    WakerThere(run[k], e, q);
  }

  /**
    In every state of every run: a parent is neither UNUSED nor ZOMBIE; a process asleep in wait2
    while wait_lock is free has no ZOMBIE child; every zombie has a parent, and its number has
    not been collected before.
   */
  lemma {:induction false} ExitWaitSafe(run: seq<State>, k: nat, c: nat)
    requires Run(run) && k < |run| && c < |run[k].state|
    ensures
      var s := run[k];
      && Sized(s)
      && (s.parent[c].Some? ==> s.parent[c].value < |s.state| && s.state[s.parent[c].value] != UNUSED && s.state[s.parent[c].value] != ZOMBIE)
      && (s.waitLock == None && s.parent[c].Some? && s.state[c] == ZOMBIE ==>
        !(s.pc[s.parent[c].value].Asleep? && s.state[s.parent[c].value] == SLEEPING))
      && (s.state[c] == ZOMBIE ==> s.parent[c].Some? && s.pid[c] !in s.reaped)
  {
    var s := run[k];
    RunInv(run, k);
    hide Run;
    About(s, c);
    InitStays(s);
    if s.waitLock == None && s.parent[c].Some? && s.state[c] == ZOMBIE && SleepsAt(s, s.parent[c].value) {
      ZombieParentWoken(run, k, c, s.parent[c].value);
    }
    hide LocksOk, StatesOk, ParentsOk, ForksOk, ReparentOk, ScanOk;
  }
}

/**
  One sleep lock, used by any number of processes: acquiresleep and releasesleep as interleaved
  steps between lock operations, with the sleep and the wakeup they call. The protocol is a
  use of SleepWakeup with one spinlock and one channel, and its safety follows from there.
 */
module SleepLock {
  import opened Blocks
  import SleepWakeup

  /** Where a process is with respect to the sleep lock. */
  datatype Pc =
    | Outside
    | Testing          // acquiresleep, holding the spinlock, at the loop's test
    | SleepCalled      // in sleep, holding the spinlock
    | SleepHold        // with the spinlock and its own lock
    | SleepReleased    // with its own lock, not yet SLEEPING
    | Sleeping         // SLEEPING, its own lock not yet released by the scheduler
    | Asleep           // switched out
    | Woken            // running again, with its own lock
    | Again            // about to take the spinlock again
    | Holding          // has the sleep lock
    | Releasing        // releasesleep, holding the spinlock
    | Waking(j: nat)   // in wakeup's loop, holding the spinlock
    | WakingDone       // after the loop, holding the spinlock

  /** A process: where it is, whether it is SLEEPING on this lock, and who holds its own lock. */
  datatype Proc = Proc(pc: Pc, asleep: bool, lock: Option<nat>)

  /** The sleep lock: who holds its spinlock, its flag, and who it was given to. */
  datatype Lock = Lock(spin: Option<nat>, locked: bool, owner: Option<nat>)

  datatype State = State(proc: seq<Proc>, lk: Lock)

  predicate HoldsSpin(c: Pc)
  {
    c.Testing? || c.SleepCalled? || c.SleepHold? || c.Releasing? || c.Waking? || c.WakingDone?
  }

  predicate HoldsOwn(c: Pc)
  {
    c.SleepHold? || c.SleepReleased? || c.Sleeping? || c.Woken?
  }

  /** On the way into sleep, or asleep and not woken yet. */
  predicate Sleepish(q: Proc)
  {
    q.pc.SleepCalled? || q.pc.SleepHold? || q.pc.SleepReleased? || q.pc.Sleeping? || (q.pc.Asleep? && q.asleep)
  }

  // ---------------------------------------------------------------- the steps of process p

  datatype Action =
    | AcquireSpin | Take | CallSleep | SleepLock | SleepRelease | SleepSet | SleepSwitch | Resume | WokenUnlock | Respin
    | ReleaseSpin | Clear | WakeOne | WakeDone | Kill(k: nat)

  /** The steps that change process p, from q to q', and the sleep lock, from k to k'. */
  predicate Own(p: nat, q: Proc, k: Lock, q': Proc, k': Lock, a: Action)
    requires !a.WakeOne? && !a.Kill?
  {
    match a
    // acquiresleep
    case AcquireSpin => q.pc.Outside? && k.spin == None && q' == q.(pc := Testing) && k' == k.(spin := Some(p))
    case Take => q.pc.Testing? && !k.locked && q' == q.(pc := Holding) && k' == Lock(None, true, Some(p))
    // sleep
    case CallSleep => q.pc.Testing? && k.locked && q' == q.(pc := SleepCalled) && k' == k
    case SleepLock => q.pc.SleepCalled? && q.lock == None && q' == q.(pc := SleepHold, lock := Some(p)) && k' == k
    case SleepRelease => q.pc.SleepHold? && q' == q.(pc := SleepReleased) && k' == k.(spin := None)
    case SleepSet => q.pc.SleepReleased? && q' == q.(pc := Sleeping, asleep := true) && k' == k
    case SleepSwitch => q.pc.Sleeping? && q' == q.(pc := Asleep, lock := None) && k' == k
    case Resume => q.pc.Asleep? && !q.asleep && q.lock == None && q' == q.(pc := Woken, lock := Some(p)) && k' == k
    case WokenUnlock => q.pc.Woken? && q' == q.(pc := Again, lock := None) && k' == k
    case Respin => q.pc.Again? && k.spin == None && q' == q.(pc := Testing) && k' == k.(spin := Some(p))
    // releasesleep
    case ReleaseSpin => q.pc.Holding? && k.spin == None && q' == q.(pc := Releasing) && k' == k.(spin := Some(p))
    case Clear => q.pc.Releasing? && q' == q.(pc := Waking(0)) && k' == k.(locked := false, owner := None)
    case WakeDone => q.pc.WakingDone? && q' == q.(pc := Outside) && k' == k.(spin := None)
  }

  function AfterWake(n: nat, j: nat): (c: Pc)
  {
    if j + 1 < n then Waking(j + 1) else WakingDone
  }

  predicate Act(s: State, s': State, p: nat, a: Action)
  {
    p < |s.proc| && var c := s.proc[p].pc; match a
    // one process in wakeup's loop, with its lock
    case WakeOne =>
      c.Waking? && c.j < |s.proc| && var q := s.proc[c.j];
      if c.j == p then s' == State(s.proc[p := q.(pc := AfterWake(|s.proc|, c.j))], s.lk)
      else q.lock == None && s' == State(s.proc[c.j := q.(asleep := false)][p := s.proc[p].(pc := AfterWake(|s.proc|, c.j))], s.lk)
    // kill makes a sleeper runnable, whatever it waits for
    case Kill(k) => c.Outside? && k < |s.proc| && s.proc[k].lock == None && s' == State(s.proc[k := s.proc[k].(asleep := false)], s.lk)
    case _ => |s'.proc| == |s.proc| && Own(p, s.proc[p], s.lk, s'.proc[p], s'.lk, a) && s' == State(s.proc[p := s'.proc[p]], s'.lk)
  }

  ghost predicate Step(s: State, s': State)
  {
    exists p, a :: Act(s, s', p, a)
  }

  ghost predicate Start(s: State)
  {
    s.lk == Lock(None, false, None) && forall p :: 0 <= p < |s.proc| ==> s.proc[p] == Proc(Outside, false, None)
  }

  ghost predicate Run(run: seq<State>)
  {
    |run| > 0 && Start(run[0]) && forall i :: 0 <= i < |run| - 1 ==> Step(run[i], run[i + 1])
  }

  // ---------------------------------------------------------------- the invariant

  /** The locks and the sleep lock are held by those whose place says so. */
  predicate ProcOk(p: nat, q: Proc, k: Lock)
  {
    && (HoldsSpin(q.pc) <==> k.spin == Some(p))
    && q.lock == (if HoldsOwn(q.pc) then Some(p) else None)
    && (q.asleep ==> q.pc.Sleeping? || q.pc.Asleep?) && (q.pc.Sleeping? ==> q.asleep)
    && (q.pc.Holding? || q.pc.Releasing? <==> k.owner == Some(p))
  }

  ghost predicate Inv(s: State)
  {
    (s.lk.locked <==> s.lk.owner.Some?) && forall p :: 0 <= p < |s.proc| ==> ProcOk(p, s.proc[p], s.lk)
  }

  lemma {:induction false} StepInv(s: State, s': State, p: nat, a: Action)
    requires Inv(s) && Act(s, s', p, a)
    ensures Inv(s') && |s'.proc| == |s.proc|
  {
    assert ProcOk(p, s.proc[p], s.lk);
    forall i | 0 <= i < |s.proc|
      ensures ProcOk(i, s'.proc[i], s'.lk)
    {
      assert ProcOk(i, s.proc[i], s.lk);
    }
  }

  /** At the loop's test a process takes the lock exactly when it is free, and sleeps exactly when it is not. */
  lemma {:induction false} TestingTurn(s: State, p: nat)
    requires p < |s.proc| && s.proc[p].pc == Testing
    ensures (exists s' :: Act(s, s', p, Take)) <==> !s.lk.locked
    ensures (exists s' :: Act(s, s', p, CallSleep)) <==> s.lk.locked
    ensures forall s', a :: Act(s, s', p, a) ==> a == Take || a == CallSleep
  {
    var got := State(s.proc[p := s.proc[p].(pc := Holding)], Lock(None, true, Some(p)));
    var slept := State(s.proc[p := s.proc[p].(pc := SleepCalled)], s.lk);
    assert !s.lk.locked ==> Act(s, got, p, Take);
    assert s.lk.locked ==> Act(s, slept, p, CallSleep);
  }

  lemma {:induction false} RunInv(run: seq<State>, k: nat)
    requires Run(run) && k < |run|
    ensures Inv(run[k]) && |run[k].proc| == |run[0].proc|
    decreases k
  {
    hide Act;
    if k > 0 {
      hide Inv, Start;
      RunInv(run, k - 1);
      assert Step(run[k - 1], run[k - 1 + 1]);
      var p, a :| Act(run[k - 1], run[k], p, a);
      StepInv(run[k - 1], run[k], p, a);
    }
  }

  // ---------------------------------------------------------------- as a use of sleep and wakeup

  /** The spinlock inside the sleep lock, and the sleep lock as a channel. */
  const LK := 0
  const CHAN := 1

  function AbsPc(c: Pc): (r: SleepWakeup.Pc)
  {
    match c
    case SleepCalled => SleepWakeup.SleepCalled(CHAN, LK)
    case SleepHold => SleepWakeup.SleepHold(CHAN, LK)
    case SleepReleased => SleepWakeup.SleepReleased(CHAN, LK)
    case Sleeping => SleepWakeup.Sleeping(CHAN, LK)
    case Asleep => SleepWakeup.Asleep(CHAN, LK)
    case Woken => SleepWakeup.Woken(LK)
    case Again => SleepWakeup.Again(LK)
    case Waking(j) => SleepWakeup.Waking(CHAN, j)
    case _ => SleepWakeup.Running
  }

  function AbsProc(q: Proc): (r: SleepWakeup.Proc)
    ensures SleepWakeup.Napping(r) <==> Sleepish(q)
  {
    SleepWakeup.Proc(AbsPc(q.pc), q.asleep, if q.pc.Sleeping? || q.pc.Asleep? || q.pc.Woken? then CHAN else 0, q.lock)
  }

  function AbsHeld(spin: Option<nat>): (h: map<nat, nat>)
    ensures LK in h <==> spin.Some?
    ensures spin.Some? ==> h[LK] == spin.value
  {
    if spin.Some? then map[LK := spin.value] else map[]
  }

  function Abs(s: State): (g: SleepWakeup.State)
    ensures |g.proc| == |s.proc| && g.held == AbsHeld(s.lk.spin)
    ensures forall i :: 0 <= i < |s.proc| ==> g.proc[i] == AbsProc(s.proc[i])
  {
    SleepWakeup.State(seq(|s.proc|, i requires 0 <= i < |s.proc| => AbsProc(s.proc[i])), AbsHeld(s.lk.spin))
  }

  lemma {:induction false} AbsSet(s: State, p: nat, q: Proc, k: Lock)
    requires p < |s.proc|
    ensures Abs(State(s.proc[p := q], k)) == SleepWakeup.Set(Abs(s), p, AbsProc(q), AbsHeld(k.spin))
  {
    assert Abs(State(s.proc[p := q], k)).proc == Abs(s).proc[p := AbsProc(q)];
  }

  function AbsAction(a: Action): (g: SleepWakeup.Action)
  {
    match a
    case AcquireSpin => SleepWakeup.Acquire(LK)
    case Take => SleepWakeup.Release(LK)
    case CallSleep => SleepWakeup.CallSleep(CHAN, LK)
    case SleepLock => SleepWakeup.SleepLock
    case SleepRelease => SleepWakeup.SleepRelease
    case SleepSet => SleepWakeup.SleepSet
    case SleepSwitch => SleepWakeup.SleepSwitch
    case Resume => SleepWakeup.Resume
    case WokenUnlock => SleepWakeup.WokenUnlock
    case Respin => SleepWakeup.Relock
    case ReleaseSpin => SleepWakeup.Acquire(LK)
    case Clear => SleepWakeup.CallWakeup(CHAN)
    case WakeOne => SleepWakeup.WakeOne
    case WakeDone => SleepWakeup.Release(LK)
    case Kill(k) => SleepWakeup.Kill(k)
  }

  lemma {:induction false} OwnSimulates(p: nat, q: Proc, k: Lock, q': Proc, k': Lock, a: Action)
    requires ProcOk(p, q, k) && !a.WakeOne? && !a.Kill? && Own(p, q, k, q', k', a)
    ensures SleepWakeup.OwnAction(AbsAction(a)) && SleepWakeup.Own(p, AbsProc(q), AbsHeld(k.spin), AbsProc(q'), AbsHeld(k'.spin), AbsAction(a))
  {
    HeldMoves(p);
    hide AbsHeld;
  }

  lemma {:induction false} HeldMoves(p: nat)
    ensures AbsHeld(None)[LK := p] == AbsHeld(Some(p)) && AbsHeld(Some(p)) - {LK} == AbsHeld(None)
  {
  }

  /** Every step is one step of sleep and wakeup. */
  lemma {:induction false} Simulates(s: State, s': State, p: nat, a: Action)
    requires Inv(s) && Act(s, s', p, a)
    ensures SleepWakeup.Act(Abs(s), Abs(s'), p, AbsAction(a))
  {
    assert ProcOk(p, s.proc[p], s.lk);
    hide Abs, Inv;
    if a.Kill? {
      AbsSet(s, a.k, s.proc[a.k].(asleep := false), s.lk);
    } else if a.WakeOne? {
      WakeSimulates(s, s', p);
    } else {
      OwnSimulates(p, s.proc[p], s.lk, s'.proc[p], s'.lk, a);
      hide Own, SleepWakeup.Own, AbsProc, AbsHeld;
      AbsSet(s, p, s'.proc[p], s'.lk);
    }
  }

  lemma {:induction false} WakeSimulates(s: State, s': State, p: nat)
    requires Inv(s) && Act(s, s', p, WakeOne)
    ensures SleepWakeup.Act(Abs(s), Abs(s'), p, SleepWakeup.WakeOne)
  {
    assert ProcOk(p, s.proc[p], s.lk);
    hide Abs;
    var n, j := |s.proc|, s.proc[p].pc.j;
    var q' := s.proc[p].(pc := AfterWake(n, j));
    assert AbsProc(q') == AbsProc(s.proc[p]).(pc := SleepWakeup.AfterWake(n, CHAN, j));
    if j == p {
      AbsSet(s, p, q', s.lk);
    } else {
      assert ProcOk(j, s.proc[j], s.lk);
      AbsSet(s, j, s.proc[j].(asleep := false), s.lk);
      AbsSet(State(s.proc[j := s.proc[j].(asleep := false)], s.lk), p, q', s.lk);
    }
  }

  ghost function AbsRun(run: seq<State>): (g: seq<SleepWakeup.State>)
    ensures |g| == |run| && forall i :: 0 <= i < |run| ==> g[i] == Abs(run[i])
  {
    seq(|run|, i requires 0 <= i < |run| => Abs(run[i]))
  }

  lemma {:induction false} RunSimulates(run: seq<State>)
    requires Run(run)
    ensures SleepWakeup.Run(AbsRun(run))
  {
    hide Abs, Act, SleepWakeup.Act;
    forall i | 0 <= i < |run| - 1
      ensures SleepWakeup.Step(AbsRun(run)[i], AbsRun(run)[i + 1])
    {
      RunInv(run, i);
      var p, a :| Act(run[i], run[i + 1], p, a);
      Simulates(run[i], run[i + 1], p, a);
    }
  }

  // ---------------------------------------------------------------- nobody sleeps on a free lock

  lemma {:induction false} FallsAsleep(s: State, s': State, p: nat)
    requires Step(s, s') && p < |s.proc| == |s'.proc|
    ensures !Sleepish(s.proc[p]) && Sleepish(s'.proc[p]) ==> s'.lk.locked
  {
  }

  lemma {:induction false} Cleared(s: State, s': State) returns (e: nat)
    requires Step(s, s')
    ensures s.lk.locked && !s'.lk.locked ==>
      e < |s.proc| && s.proc[e].pc.Releasing? && e < |s'.proc| && s'.proc[e].pc == Waking(0)
  {
    var p, a :| Act(s, s', p, a);
    e := p;
  }

  /** Whoever is in sleep called it at some moment, with the lock taken, and has been in it since. */
  lemma {:induction false} NapStart(run: seq<State>, k: nat, p: nat) returns (a: nat)
    requires Run(run) && k < |run| && p < |run[k].proc| && Sleepish(run[k].proc[p])
    ensures a <= k && run[a].lk.locked && forall t :: a <= t <= k ==> p < |run[t].proc| && Sleepish(run[t].proc[p])
    decreases k
  {
    hide Step, Inv, Act;
    assert k > 0;
    RunInv(run, k - 1);
    RunInv(run, k);
    assert Step(run[k - 1], run[k - 1 + 1]);
    FallsAsleep(run[k - 1], run[k], p);
    if Sleepish(run[k - 1].proc[p]) {
      a := NapStart(run, k - 1, p);
    } else {
      a := k;
    }
  }

  /** A lock that was taken and is free was cleared in between, by a process about to call wakeup. */
  lemma {:induction false} LastClear(run: seq<State>, a: nat, k: nat) returns (m: nat, e: nat)
    requires Run(run) && a <= k < |run| && run[a].lk.locked && !run[k].lk.locked
    ensures a <= m < k && e < |run[m].proc| && run[m].proc[e].pc.Releasing?
    ensures e < |run[m + 1].proc| && run[m + 1].proc[e].pc == Waking(0)
    decreases k
  {
    hide Step, Start;
    assert Step(run[k - 1], run[k - 1 + 1]);
    if run[k - 1].lk.locked {
      m := k - 1;
      e := Cleared(run[m], run[k]);
    } else {
      m, e := LastClear(run, a, k - 1);
    }
  }

  /**
    In every state of every run: at most one process holds the sleep lock, and whoever is in sleep
    while it is free is one that the wakeup of the holder of the spinlock is still to reach; so
    nobody sleeps when both are free.
   */
  lemma {:induction false} SleepLockSafe(run: seq<State>, k: nat, p: nat, q: nat)
    requires Run(run) && k < |run| && p < |run[k].proc| && q < |run[k].proc|
    ensures run[k].proc[p].pc.Holding? && run[k].proc[q].pc.Holding? ==> p == q
    ensures run[k].proc[p].pc.Holding? ==> run[k].lk.locked && run[k].lk.owner == Some(p)
    ensures !run[k].lk.locked && Sleepish(run[k].proc[p]) ==> WillWake(run[k], p)
    ensures !run[k].lk.locked && run[k].lk.spin == None ==> !Sleepish(run[k].proc[p])
  {
    hide Act, Step;
    RunInv(run, k);
    assert ProcOk(p, run[k].proc[p], run[k].lk) && ProcOk(q, run[k].proc[q], run[k].lk);
    if !run[k].lk.locked && Sleepish(run[k].proc[p]) {
      StillToWake(run, k, p);
    }
  }

  /** The holder of the spinlock is in wakeup and has not come past process p. */
  ghost predicate WillWake(s: State, p: nat)
  {
    s.lk.spin.Some? && s.lk.spin.value < |s.proc| && s.proc[s.lk.spin.value].pc.Waking? && s.proc[s.lk.spin.value].pc.j <= p
  }

  /** The wakeup after the last release is not lost on process p. */
  lemma {:induction false} StillToWake(run: seq<State>, k: nat, p: nat)
    requires Run(run) && k < |run| && p < |run[k].proc| && !run[k].lk.locked && Sleepish(run[k].proc[p])
    ensures WillWake(run[k], p)
  {
    hide Run, Inv, Abs, Sleepish, SleepWakeup.Run, SleepWakeup.SleepsOn, SleepWakeup.InSleep, SleepWakeup.InWakeup, SleepWakeup.WillReach, WillWake;
    var a := NapStart(run, k, p);
    var m, e := LastClear(run, a, k);
    RunInv(run, m);
    RunInv(run, k);
    RunInv(run, m + 1);
    WakerAt(run[m], run[m + 1], e);
    AwakeReleasing(run[m].proc[e]);
    RunSimulates(run);
    SleeperAt(run[a], p);
    forall t | a < t <= k
      ensures SleepWakeup.InSleep(AbsRun(run)[t], p)
    {
      SleeperAt(run[t], p);
    }
    SleepWakeup.StillToReach(AbsRun(run), a, m, m + 1, k, p, e, CHAN, LK);
    WakerLeft(run[k], e, p);
  }

  lemma {:induction false} AwakeReleasing(q: Proc)
    ensures q.pc.Releasing? ==> !Sleepish(q)
  {
  }

  lemma {:induction false} SleeperAt(s: State, p: nat)
    requires p < |s.proc| && Sleepish(s.proc[p])
    ensures SleepWakeup.SleepsOn(Abs(s), p, CHAN, LK) && SleepWakeup.InSleep(Abs(s), p)
  {
  }

  /** The waker in the abstraction: with the spinlock, and then at the start of wakeup. */
  lemma {:induction false} WakerAt(s: State, s': State, e: nat)
    requires Inv(s) && e < |s.proc| && e < |s'.proc| && s.proc[e].pc.Releasing? && s'.proc[e].pc == Waking(0)
    ensures LK in Abs(s).held && Abs(s).held[LK] == e
    ensures SleepWakeup.InWakeup(Abs(s'), e) && Abs(s').proc[e].pc == SleepWakeup.Waking(CHAN, 0)
  {
    assert ProcOk(e, s.proc[e], s.lk);
  }

  lemma {:induction false} WakerLeft(s: State, e: nat, p: nat)
    requires Inv(s) && SleepWakeup.WillReach(Abs(s), e, p, CHAN)
    ensures WillWake(s, p)
  {
    assert ProcOk(e, s.proc[e], s.lk);
  }
}

/**
  sleep(chan, lk) and wakeup(chan) for any number of processes, spinlocks and channels, as
  interleaved steps. A step is what happens between two lock operations; every spinlock and
  every p->lock is explicit, and wakeup takes each p->lock in turn. What a process does with
  its spinlocks outside sleep and wakeup is up to it.
 */
module SleepWakeup {
  import opened Blocks

  /** Where a process is with respect to sleep and wakeup. */
  datatype Pc =
    | Running
    | SleepCalled(chan: nat, lk: nat)     // in sleep, holding lk
    | SleepHold(chan: nat, lk: nat)       // with lk and its own lock
    | SleepReleased(chan: nat, lk: nat)   // with its own lock, not yet SLEEPING
    | Sleeping(chan: nat, lk: nat)        // SLEEPING, its own lock not yet released by the scheduler
    | Asleep(chan: nat, lk: nat)          // switched out
    | Woken(lk: nat)                      // running again, with its own lock
    | Again(lk: nat)                      // about to take lk again
    | Waking(chan: nat, j: nat)           // in wakeup's loop, at process j

  /** A process: where it is, whether it is SLEEPING, its channel, and who holds its own lock. */
  datatype Proc = Proc(pc: Pc, asleep: bool, chan: nat, lock: Option<nat>)

  /** held maps the spinlocks that are taken to their holders. */
  datatype State = State(proc: seq<Proc>, held: map<nat, nat>)

  predicate HoldsLk(c: Pc)
  {
    c.SleepCalled? || c.SleepHold?
  }

  predicate HoldsOwn(c: Pc)
  {
    c.SleepHold? || c.SleepReleased? || c.Sleeping?
  }

  /** In sleep, and not made runnable yet. */
  predicate Napping(q: Proc)
  {
    q.pc.SleepCalled? || q.pc.SleepHold? || q.pc.SleepReleased? || q.pc.Sleeping? || (q.pc.Asleep? && q.asleep)
  }

  predicate InSleep(s: State, p: nat)
  {
    p < |s.proc| && Napping(s.proc[p])
  }

  predicate SleepsOn(s: State, p: nat, chan: nat, lk: nat)
  {
    InSleep(s, p) && s.proc[p].pc.chan == chan && s.proc[p].pc.lk == lk
  }

  /** Far enough into sleep to have given up lk. */
  predicate Released(s: State, p: nat, chan: nat, lk: nat)
  {
    SleepsOn(s, p, chan, lk) && !HoldsLk(s.proc[p].pc)
  }

  predicate InWakeup(s: State, e: nat)
  {
    e < |s.proc| && s.proc[e].pc.Waking?
  }

  // ---------------------------------------------------------------- the steps of process p

  datatype Action =
    | Acquire(lk: nat) | Release(lk: nat) | TakeLock(i: nat) | DropLock(i: nat)
    | CallSleep(chan: nat, lk: nat) | SleepLock | SleepRelease | SleepSet | SleepSwitch | Resume | WokenUnlock | Relock
    | CallWakeup(chan: nat) | WakeOne | Kill(k: nat)

  function Set(s: State, p: nat, q: Proc, h: map<nat, nat>): (s': State)
    requires p < |s.proc|
  {
    State(s.proc[p := q], h)
  }

  predicate OwnAction(a: Action)
  {
    !a.TakeLock? && !a.DropLock? && !a.WakeOne? && !a.Kill?
  }

  /** The steps that change process p, from q to q', and the spinlocks, from h to h'. */
  predicate Own(p: nat, q: Proc, h: map<nat, nat>, q': Proc, h': map<nat, nat>, a: Action)
    requires OwnAction(a)
  {
    match a
    // spinlocks outside sleep and wakeup
    case Acquire(lk) => q.pc.Running? && lk !in h && q' == q && h' == h[lk := p]
    case Release(lk) => q.pc.Running? && lk in h && h[lk] == p && q' == q && h' == h - {lk}
    // sleep
    case CallSleep(chan, lk) => q.pc.Running? && lk in h && h[lk] == p && q' == q.(pc := SleepCalled(chan, lk)) && h' == h
    case SleepLock => q.pc.SleepCalled? && q.lock == None && q' == q.(pc := SleepHold(q.pc.chan, q.pc.lk), lock := Some(p)) && h' == h
    case SleepRelease => q.pc.SleepHold? && q' == q.(pc := SleepReleased(q.pc.chan, q.pc.lk)) && h' == h - {q.pc.lk}
    case SleepSet => q.pc.SleepReleased? && q' == q.(pc := Sleeping(q.pc.chan, q.pc.lk), asleep := true, chan := q.pc.chan) && h' == h
    case SleepSwitch => q.pc.Sleeping? && q' == q.(pc := Asleep(q.pc.chan, q.pc.lk), lock := None) && h' == h
    case Resume => q.pc.Asleep? && !q.asleep && q.lock == None && q' == q.(pc := Woken(q.pc.lk), lock := Some(p)) && h' == h
    case WokenUnlock => q.pc.Woken? && q' == q.(pc := Again(q.pc.lk), chan := 0, lock := None) && h' == h
    case Relock => q.pc.Again? && q.pc.lk !in h && q' == q.(pc := Running) && h' == h[q.pc.lk := p]
    // wakeup
    case CallWakeup(chan) => q.pc.Running? && q' == q.(pc := Waking(chan, 0)) && h' == h
  }

  function AfterWake(n: nat, chan: nat, j: nat): (c: Pc)
  {
    if j + 1 < n then Waking(chan, j + 1) else Running
  }

  predicate Act(s: State, s': State, p: nat, a: Action)
  {
    p < |s.proc| && var c := s.proc[p].pc; match a
    // the locks of processes outside sleep and wakeup
    case TakeLock(i) => c.Running? && i < |s.proc| && s.proc[i].lock == None && s' == Set(s, i, s.proc[i].(lock := Some(p)), s.held)
    case DropLock(i) => c.Running? && i < |s.proc| && s.proc[i].lock == Some(p) && s' == Set(s, i, s.proc[i].(lock := None), s.held)
    // one process in wakeup's loop, with its lock
    case WakeOne =>
      c.Waking? && c.j < |s.proc| && var q := s.proc[c.j];
      if c.j == p then s' == Set(s, p, q.(pc := AfterWake(|s.proc|, c.chan, c.j)), s.held)
      else
        && q.lock == None
        && s' == Set(Set(s, c.j, q.(asleep := q.asleep && q.chan != c.chan), s.held), p, s.proc[p].(pc := AfterWake(|s.proc|, c.chan, c.j)), s.held)
    // kill makes a sleeper runnable, whatever it waits for
    case Kill(k) => c.Running? && k < |s.proc| && s.proc[k].lock == None && s' == Set(s, k, s.proc[k].(asleep := false), s.held)
    case _ => |s'.proc| == |s.proc| && Own(p, s.proc[p], s.held, s'.proc[p], s'.held, a) && s' == Set(s, p, s'.proc[p], s'.held)
  }

  ghost predicate Step(s: State, s': State)
  {
    s' == s || exists p, a :: Act(s, s', p, a)
  }

  ghost predicate Start(s: State)
  {
    s.held == map[] && forall p :: 0 <= p < |s.proc| ==> s.proc[p].pc == Running && !s.proc[p].asleep && s.proc[p].lock == None
  }

  ghost predicate Run(run: seq<State>)
  {
    |run| > 0 && Start(run[0]) && forall i :: 0 <= i < |run| - 1 ==> Step(run[i], run[i + 1])
  }

  // ---------------------------------------------------------------- the invariant

  /** A process on its way into sleep holds what it must, and its channel is the one it sleeps on. */
  predicate ProcOk(p: nat, q: Proc, held: map<nat, nat>)
  {
    && (HoldsLk(q.pc) ==> q.pc.lk in held && held[q.pc.lk] == p)
    && (HoldsOwn(q.pc) ==> q.lock == Some(p))
    && (q.pc.Sleeping? || q.pc.Asleep? ==> q.chan == q.pc.chan)
    && (q.pc.Sleeping? ==> q.asleep)
    && (q.asleep ==> q.pc.Sleeping? || q.pc.Asleep?)
  }

  ghost predicate Inv(s: State)
  {
    forall p :: 0 <= p < |s.proc| ==> ProcOk(p, s.proc[p], s.held)
  }

  lemma {:induction false} StepInv(s: State, s': State, p: nat, a: Action)
    requires Inv(s) && Act(s, s', p, a)
    ensures Inv(s') && |s'.proc| == |s.proc|
  {
    forall i | 0 <= i < |s.proc|
      ensures ProcOk(i, s'.proc[i], s'.held)
    {
      assert ProcOk(i, s.proc[i], s.held);
      assert ProcOk(p, s.proc[p], s.held);
    }
  }

  lemma {:induction false} RunInv(run: seq<State>, k: nat)
    requires Run(run) && k < |run|
    ensures Inv(run[k]) && |run[k].proc| == |run[0].proc|
    decreases k
  {
    hide Act;
    if k > 0 {
      hide Inv, Start;
      RunInv(run, k - 1);
      assert Step(run[k - 1], run[k - 1 + 1]);
      if run[k] != run[k - 1] {
        var p, a :| Act(run[k - 1], run[k], p, a);
        StepInv(run[k - 1], run[k], p, a);
      }
    }
  }

  // ---------------------------------------------------------------- no wakeup is lost

  /** Where a process is changes only by its own steps. */
  lemma {:induction false} OthersStay(s: State, s': State, q: nat, x: Action, e: nat)
    requires Act(s, s', q, x) && e < |s.proc| && e != q
    ensures |s'.proc| == |s.proc| && s'.proc[e].pc == s.proc[e].pc
  {
  }

  lemma {:induction false} OwnNap(s: State, s': State, p: nat, x: Action, chan: nat, lk: nat)
    requires Act(s, s', p, x) && SleepsOn(s, p, chan, lk) && InSleep(s', p)
    ensures SleepsOn(s', p, chan, lk) && (Released(s, p, chan, lk) ==> Released(s', p, chan, lk))
  {
  }

  /** Until it is made runnable, a process stays in the same sleep, and does not get lk back. */
  lemma {:induction false} NapStep(s: State, s': State, p: nat, chan: nat, lk: nat)
    requires Step(s, s') && SleepsOn(s, p, chan, lk) && InSleep(s', p)
    ensures SleepsOn(s', p, chan, lk) && (Released(s, p, chan, lk) ==> Released(s', p, chan, lk))
  {
    hide Act;
    if s' != s {
      var q, x :| Act(s, s', q, x);
      if q != p {
        OthersStay(s, s', q, x, p);
      } else {
        OwnNap(s, s', p, x, chan, lk);
      }
    }
  }

  /** A sleep ends only when a wakeup of its own channel comes to the process, or the process is killed. */
  lemma {:induction false} NapEnds(s: State, s': State, q: nat, x: Action, p: nat, chan: nat, lk: nat)
    requires Inv(s) && Act(s, s', q, x) && SleepsOn(s, p, chan, lk) && !InSleep(s', p)
    ensures q < |s.proc| && q != p && (x == Kill(p) || (s.proc[q].pc == Waking(chan, p) && x == WakeOne))
  {
    assert ProcOk(p, s.proc[p], s.held);
    hide Inv;
  }

  lemma {:induction false} NapLasts(run: seq<State>, a: nat, t: nat, p: nat, chan: nat, lk: nat)
    requires Run(run) && a <= t < |run| && SleepsOn(run[a], p, chan, lk) && forall i :: a <= i <= t ==> InSleep(run[i], p)
    ensures SleepsOn(run[t], p, chan, lk) && (Released(run[a], p, chan, lk) ==> Released(run[t], p, chan, lk))
    decreases t
  {
    hide Step, Start, InSleep, SleepsOn, Released;
    if a < t {
      NapLasts(run, a, t - 1, p, chan, lk);
      assert Step(run[t - 1], run[t - 1 + 1]);
      NapStep(run[t - 1], run[t], p, chan, lk);
    }
  }

  /** In a wakeup of chan that has not come past process p. */
  predicate WillReach(s: State, e: nat, p: nat, chan: nat)
  {
    InWakeup(s, e) && s.proc[e].pc.chan == chan && s.proc[e].pc.j <= p
  }

  /** A wakeup of chan does not come past a process that sleeps on chan without making it runnable. */
  lemma {:induction false} WakeStep(s: State, s': State, e: nat, p: nat, chan: nat, lk: nat)
    requires Inv(s) && Step(s, s') && Released(s, p, chan, lk) && InSleep(s', p) && WillReach(s, e, p, chan)
    ensures WillReach(s', e, p, chan)
  {
    assert ProcOk(p, s.proc[p], s.held);
    hide Inv;
    if s' != s {
      var q, x :| Act(s, s', q, x);
      if q != e {
        OthersStay(s, s', q, x, e);
      } else {
        assert x.WakeOne?;
      }
    }
  }

  lemma {:induction false} WakingLasts(run: seq<State>, c: nat, t: nat, e: nat, p: nat, chan: nat, lk: nat)
    requires Run(run) && c <= t < |run| && Released(run[c], p, chan, lk) && forall i :: c <= i <= t ==> InSleep(run[i], p)
    requires WillReach(run[c], e, p, chan)
    ensures WillReach(run[t], e, p, chan)
    decreases t
  {
    hide Step, Inv, Start, InSleep, WillReach;
    if c < t {
      WakingLasts(run, c, t - 1, e, p, chan, lk);
      NapLasts(run, c, t - 1, p, chan, lk);
      RunInv(run, t - 1);
      assert Step(run[t - 1], run[t - 1 + 1]);
      WakeStep(run[t - 1], run[t], e, p, chan, lk);
    }
  }

  /**
    Process p is in sleep(chan, lk), at whatever point of it, when the run is at a; another process
    e takes lk, or has it after p gave it up, and holds it at b; and e is at the start of
    wakeup(chan) at c, with or without lk. As long as p is still in its sleep, e is in that loop
    and has not come past p.
   */
  lemma {:induction false} StillToReach(run: seq<State>, a: nat, b: nat, c: nat, d: nat, p: nat, e: nat, chan: nat, lk: nat)
    requires Run(run) && a <= b <= c <= d < |run| && SleepsOn(run[a], p, chan, lk)
    requires lk in run[b].held && run[b].held[lk] == e != p
    requires InWakeup(run[c], e) && run[c].proc[e].pc == Waking(chan, 0)
    requires forall t :: a < t <= d ==> InSleep(run[t], p)
    ensures WillReach(run[d], e, p, chan)
  {
    NapLasts(run, a, b, p, chan, lk);
    RunInv(run, b);
    assert ProcOk(p, run[b].proc[p], run[b].held);
    assert Released(run[b], p, chan, lk);
    NapLasts(run, b, c, p, chan, lk);
    WakingLasts(run, c, d, e, p, chan, lk);
  }

  /** No lost wakeup: by any moment d when e is out of that loop, p has been made runnable. */
  lemma {:induction false} NoLostWakeup(run: seq<State>, a: nat, b: nat, c: nat, d: nat, p: nat, e: nat, chan: nat, lk: nat)
    requires Run(run) && a <= b <= c < d < |run| && SleepsOn(run[a], p, chan, lk)
    requires lk in run[b].held && run[b].held[lk] == e != p
    requires InWakeup(run[c], e) && run[c].proc[e].pc == Waking(chan, 0) && !InWakeup(run[d], e)
    ensures exists t :: a < t <= d && !InSleep(run[t], p)
  {
    if forall t :: a < t <= d ==> InSleep(run[t], p) {
      StillToReach(run, a, b, c, d, p, e, chan, lk);
    }
  }

  /** Process 0 calls sleep with lk held; process 1 runs through wakeup without it. */
  ghost function LostRun(chan: nat, lk: nat): (run: seq<State>)
    ensures |run| == 6
  {
    var q := Proc(Running, false, 0, None);
    var z := q.(pc := SleepCalled(chan, lk));
    var h := map[lk := 0];
    [State([q, q], map[]), State([q, q], h), State([z, q], h),
     State([z, q.(pc := Waking(chan, 0))], h), State([z, q.(pc := Waking(chan, 1))], h), State([z, q], h)]
  }

  lemma {:induction false} LostSteps(chan: nat, lk: nat)
    ensures Run(LostRun(chan, lk))
  {
    var run := LostRun(chan, lk);
    assert Act(run[0], run[1], 0, Acquire(lk));
    assert Act(run[1], run[2], 0, CallSleep(chan, lk));
    assert Act(run[2], run[3], 1, CallWakeup(chan));
    assert Act(run[3], run[4], 1, WakeOne);
    assert Act(run[4], run[5], 1, WakeOne);
  }

  /** Without lk the wakeup may be lost: it passes process 0 between its call of sleep and its taking its own lock. */
  lemma {:induction false} LostWithoutLock(chan: nat, lk: nat) returns (run: seq<State>)
    ensures Run(run) && |run| == 6 && SleepsOn(run[2], 0, chan, lk)
    ensures InWakeup(run[3], 1) && run[3].proc[1].pc == Waking(chan, 0) && !InWakeup(run[5], 1)
    ensures forall t :: 2 <= t <= 5 ==> InSleep(run[t], 0)
  {
    hide Run;
    run := LostRun(chan, lk);
    LostSteps(chan, lk);
  }
}

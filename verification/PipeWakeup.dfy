/**
  Readers, writers and closers of one pipe as interleaved steps of any number of processes: who
  sleeps on a full or an empty pipe, and who wakes them. The protocol is a use of SleepWakeup
  with pi->lock as the spinlock and the two counters as channels. The bytes themselves are in
  Pipe; here only their number counts.
 */
module PipeWakeup {
  import opened Blocks
  import Pipe
  import SleepWakeup

  const LK := 0
  const NREAD := 1
  const NWRITE := 2

  datatype Stage = Called | Hold | Released | Sleeping | Asleep | Woken | Again

  /** What follows a wakeup: a writer's sleep with left bytes to go, or the end of the call. */
  datatype Next = ToSleep(left: nat) | ToLeave

  /** Where a process is with respect to the pipe. */
  datatype Pc =
    | Outside
    | Writing(left: nat)                       // pipewrite's loop test, holding the lock
    | Reading(left: nat)                       // piperead's loop test, holding the lock
    | Taking(left: nat)                        // piperead's copying loop, holding the lock
    | Closing(writable: bool)                  // pipeclose, holding the lock
    | Nap(stage: Stage, chan: nat, left: nat)  // in sleep
    | Waking(chan: nat, j: nat, next: Next)    // in wakeup's loop, holding the lock
    | WokeAll(next: Next)                      // after it, holding the lock

  datatype Proc = Proc(pc: Pc, asleep: bool, lock: Option<nat>, killed: bool)

  /** The pipe: who holds its lock, how many bytes are in it, and which ends are open. */
  datatype Ends = Ends(spin: Option<nat>, count: nat, readopen: bool, writeopen: bool)

  datatype State = State(proc: seq<Proc>, pipe: Ends)

  predicate HoldsSpin(c: Pc)
  {
    c.Writing? || c.Reading? || c.Taking? || c.Closing? || c.Waking? || c.WokeAll? || (c.Nap? && (c.stage.Called? || c.stage.Hold?))
  }

  predicate HoldsOwn(c: Pc)
  {
    c.Nap? && (c.stage.Hold? || c.stage.Released? || c.stage.Sleeping? || c.stage.Woken?)
  }

  /** On the way into sleep, or asleep and not woken yet. */
  predicate Sleepish(q: Proc)
  {
    q.pc.Nap? && !q.pc.stage.Woken? && !q.pc.stage.Again? && (q.pc.stage.Asleep? ==> q.asleep)
  }

  /** A reason to sleep on a channel: for a writer a full pipe with a reader, for a reader an empty one with a writer. */
  predicate Reason(k: Ends, chan: nat)
  {
    if chan == NWRITE then k.count == Pipe.PIPESIZE && k.readopen else k.count == 0 && k.writeopen
  }

  // ---------------------------------------------------------------- the steps of process p

  datatype Action =
    | StartWrite(n: nat) | WriteGiveUp | WriteFull | WriteByte | WriteFault | WriteDone
    | StartRead(n: nat) | ReadGiveUp | ReadSleep | ReadGo | ReadByte | ReadFault | ReadDone
    | StartClose(writable: bool) | CloseEnd | SleepAfter | Leave
    | NapLock | NapRelease | NapSet | NapSwitch | NapResume | NapUnlock | NapRelock
    | WakeOne | Kill(k: nat)

  predicate MayWrite(q: Proc, k: Ends)
  {
    q.pc.Writing? && q.pc.left > 0 && k.readopen && !q.killed
  }

  /** The steps that change process p, from q to q', and the pipe, from k to k'. */
  predicate Own(p: nat, q: Proc, k: Ends, q': Proc, k': Ends, a: Action)
    requires !a.WakeOne? && !a.Kill?
  {
    match a
    // pipewrite
    case StartWrite(n) => q.pc.Outside? && k.spin == None && q' == q.(pc := Writing(n)) && k' == k.(spin := Some(p))
    case WriteGiveUp => q.pc.Writing? && q.pc.left > 0 && (!k.readopen || q.killed) && q' == q.(pc := Outside) && k' == k.(spin := None)
    case WriteFull => MayWrite(q, k) && k.count == Pipe.PIPESIZE && q' == q.(pc := Waking(NREAD, 0, ToSleep(q.pc.left))) && k' == k
    case WriteByte => MayWrite(q, k) && k.count != Pipe.PIPESIZE && q' == q.(pc := Writing(q.pc.left - 1)) && k' == k.(count := k.count + 1)
    case WriteFault => MayWrite(q, k) && k.count != Pipe.PIPESIZE && q' == q.(pc := Waking(NREAD, 0, ToLeave)) && k' == k
    case WriteDone => q.pc.Writing? && q.pc.left == 0 && q' == q.(pc := Waking(NREAD, 0, ToLeave)) && k' == k
    // piperead
    case StartRead(n) => q.pc.Outside? && k.spin == None && q' == q.(pc := Reading(n)) && k' == k.(spin := Some(p))
    case ReadGiveUp => q.pc.Reading? && Reason(k, NREAD) && q.killed && q' == q.(pc := Outside) && k' == k.(spin := None)
    case ReadSleep => q.pc.Reading? && Reason(k, NREAD) && !q.killed && q' == q.(pc := Nap(Called, NREAD, q.pc.left)) && k' == k
    case ReadGo => q.pc.Reading? && !Reason(k, NREAD) && q' == q.(pc := Taking(q.pc.left)) && k' == k
    case ReadByte => q.pc.Taking? && q.pc.left > 0 && k.count > 0 && q' == q.(pc := Taking(q.pc.left - 1)) && k' == k.(count := k.count - 1)
    case ReadFault => q.pc.Taking? && q.pc.left > 0 && k.count > 0 && q' == q.(pc := Waking(NWRITE, 0, ToLeave)) && k' == k.(count := k.count - 1)
    case ReadDone => q.pc.Taking? && (q.pc.left == 0 || k.count == 0) && q' == q.(pc := Waking(NWRITE, 0, ToLeave)) && k' == k
    // pipeclose
    case StartClose(w) => q.pc.Outside? && k.spin == None && q' == q.(pc := Closing(w)) && k' == k.(spin := Some(p))
    case CloseEnd =>
      q.pc.Closing? && q' == q.(pc := Waking(if q.pc.writable then NREAD else NWRITE, 0, ToLeave))
      && k' == if q.pc.writable then k.(writeopen := false) else k.(readopen := false)
    // after a wakeup
    case SleepAfter => q.pc.WokeAll? && q.pc.next.ToSleep? && q' == q.(pc := Nap(Called, NWRITE, q.pc.next.left)) && k' == k
    case Leave => q.pc.WokeAll? && q.pc.next.ToLeave? && q' == q.(pc := Outside) && k' == k.(spin := None)
    // sleep
    case NapLock => q.pc.Nap? && q.pc.stage.Called? && q.lock == None && q' == q.(pc := q.pc.(stage := Hold), lock := Some(p)) && k' == k
    case NapRelease => q.pc.Nap? && q.pc.stage.Hold? && q' == q.(pc := q.pc.(stage := Released)) && k' == k.(spin := None)
    case NapSet => q.pc.Nap? && q.pc.stage.Released? && q' == q.(pc := q.pc.(stage := Sleeping), asleep := true) && k' == k
    case NapSwitch => q.pc.Nap? && q.pc.stage.Sleeping? && q' == q.(pc := q.pc.(stage := Asleep), lock := None) && k' == k
    case NapResume => q.pc.Nap? && q.pc.stage.Asleep? && !q.asleep && q.lock == None && q' == q.(pc := q.pc.(stage := Woken), lock := Some(p)) && k' == k
    case NapUnlock => q.pc.Nap? && q.pc.stage.Woken? && q' == q.(pc := q.pc.(stage := Again), lock := None) && k' == k
    case NapRelock =>
      q.pc.Nap? && q.pc.stage.Again? && k.spin == None && k' == k.(spin := Some(p))
      && q' == q.(pc := if q.pc.chan == NWRITE then Writing(q.pc.left) else Reading(q.pc.left))
  }

  function AfterWake(n: nat, c: Pc): (r: Pc)
    requires c.Waking?
  {
    if c.j + 1 < n then c.(j := c.j + 1) else WokeAll(c.next)
  }

  predicate Act(s: State, s': State, p: nat, a: Action)
  {
    p < |s.proc| && var c := s.proc[p].pc; match a
    // one process in wakeup's loop, with its lock
    case WakeOne =>
      c.Waking? && c.j < |s.proc| && var q := s.proc[c.j];
      if c.j == p then s' == s.(proc := s.proc[p := q.(pc := AfterWake(|s.proc|, c))])
      else
        && q.lock == None
        && s' == s.(proc := s.proc[c.j := q.(asleep := q.asleep && !(q.pc.Nap? && q.pc.chan == c.chan))][p := s.proc[p].(pc := AfterWake(|s.proc|, c))])
    // kill makes a sleeper runnable, whatever it waits for
    case Kill(k) => c.Outside? && k < |s.proc| && s.proc[k].lock == None && s' == s.(proc := s.proc[k := s.proc[k].(asleep := false, killed := true)])
    case _ => |s'.proc| == |s.proc| && Own(p, s.proc[p], s.pipe, s'.proc[p], s'.pipe, a) && s' == State(s.proc[p := s'.proc[p]], s'.pipe)
  }

  ghost predicate Step(s: State, s': State)
  {
    exists p: nat, a :: Act(s, s', p, a)
  }

  /** As pipealloc leaves it. */
  ghost predicate Start(s: State)
  {
    s.pipe == Ends(None, 0, true, true) && forall p :: 0 <= p < |s.proc| ==> s.proc[p] == Proc(Outside, false, None, false)
  }

  ghost predicate Run(run: seq<State>)
  {
    |run| > 0 && Start(run[0]) && forall i :: 0 <= i < |run| - 1 ==> Step(run[i], run[i + 1])
  }

  // ---------------------------------------------------------------- the invariant

  /** The locks are held by those whose place says so, and a writer about to sleep has found the pipe full. */
  predicate ProcOk(p: nat, q: Proc, k: Ends)
  {
    && (HoldsSpin(q.pc) <==> k.spin == Some(p))
    && q.lock == (if HoldsOwn(q.pc) then Some(p) else None)
    && (q.asleep ==> q.pc.Nap? && (q.pc.stage.Sleeping? || q.pc.stage.Asleep?))
    && (q.pc.Nap? ==> (q.pc.stage.Sleeping? ==> q.asleep) && (q.pc.chan == NREAD || q.pc.chan == NWRITE))
    && (q.pc.Waking? && q.pc.next.ToSleep? ==> Reason(k, NWRITE))
    && (q.pc.WokeAll? && q.pc.next.ToSleep? ==> Reason(k, NWRITE))
  }

  ghost predicate Inv(s: State)
  {
    s.pipe.count <= Pipe.PIPESIZE && forall p :: 0 <= p < |s.proc| ==> ProcOk(p, s.proc[p], s.pipe)
  }

  lemma {:induction false} OwnInv(p: nat, q: Proc, k: Ends, q': Proc, k': Ends, a: Action)
    requires !a.WakeOne? && !a.Kill? && Own(p, q, k, q', k', a) && ProcOk(p, q, k)
    ensures ProcOk(p, q', k') && (k.count <= Pipe.PIPESIZE ==> k'.count <= Pipe.PIPESIZE)
    ensures k' == k || ((k.spin == None || k.spin == Some(p)) && (k'.spin == None || k'.spin == Some(p)))
  {
  }

  lemma {:induction false} StepInv(s: State, s': State, p: nat, a: Action)
    requires Inv(s) && Act(s, s', p, a)
    ensures Inv(s') && |s'.proc| == |s.proc|
  {
    hide Own;
    assert ProcOk(p, s.proc[p], s.pipe);
    if !a.WakeOne? && !a.Kill? {
      OwnInv(p, s.proc[p], s.pipe, s'.proc[p], s'.pipe, a);
    }
    forall i | 0 <= i < |s.proc|
      ensures ProcOk(i, s'.proc[i], s'.pipe)
    {
      assert ProcOk(i, s.proc[i], s.pipe);
    }
  }

  lemma {:induction false} RunInv(run: seq<State>, k: nat)
    requires Run(run) && k < |run|
    ensures Inv(run[k]) && |run[k].proc| == |run[0].proc|
    decreases k
  {
    hide Act;
    if k > 0 {
      hide Inv, Start;
      RunInv(run, k - 1);
      assert Step(run[k - 1], run[k - 1 + 1]);
      var p: nat, a :| Act(run[k - 1], run[k], p, a);
      StepInv(run[k - 1], run[k], p, a);
    }
  }

  // ---------------------------------------------------------------- as a use of sleep and wakeup

  function AbsPc(c: Pc): (r: SleepWakeup.Pc)
  {
    match c
    case Nap(Called, chan, _) => SleepWakeup.SleepCalled(chan, LK)
    case Nap(Hold, chan, _) => SleepWakeup.SleepHold(chan, LK)
    case Nap(Released, chan, _) => SleepWakeup.SleepReleased(chan, LK)
    case Nap(Sleeping, chan, _) => SleepWakeup.Sleeping(chan, LK)
    case Nap(Asleep, chan, _) => SleepWakeup.Asleep(chan, LK)
    case Nap(Woken, _, _) => SleepWakeup.Woken(LK)
    case Nap(Again, _, _) => SleepWakeup.Again(LK)
    case Waking(chan, j, _) => SleepWakeup.Waking(chan, j)
    case _ => SleepWakeup.Running
  }

  function AbsProc(q: Proc): (r: SleepWakeup.Proc)
    ensures SleepWakeup.Napping(r) <==> Sleepish(q)
  {
    SleepWakeup.Proc(AbsPc(q.pc), q.asleep, if q.pc.Nap? && (q.pc.stage.Sleeping? || q.pc.stage.Asleep? || q.pc.stage.Woken?) then q.pc.chan else 0, q.lock)
  }

  function AbsHeld(spin: Option<nat>): (h: map<nat, nat>)
    ensures LK in h <==> spin.Some?
    ensures spin.Some? ==> h[LK] == spin.value
  {
    if spin.Some? then map[LK := spin.value] else map[]
  }

  function Abs(s: State): (g: SleepWakeup.State)
    ensures |g.proc| == |s.proc| && g.held == AbsHeld(s.pipe.spin)
    ensures forall i :: 0 <= i < |s.proc| ==> g.proc[i] == AbsProc(s.proc[i])
  {
    SleepWakeup.State(seq(|s.proc|, i requires 0 <= i < |s.proc| => AbsProc(s.proc[i])), AbsHeld(s.pipe.spin))
  }

  lemma {:induction false} AbsSet(s: State, p: nat, q: Proc, k: Ends)
    requires p < |s.proc|
    ensures Abs(State(s.proc[p := q], k)) == SleepWakeup.Set(Abs(s), p, AbsProc(q), AbsHeld(k.spin))
  {
    assert Abs(State(s.proc[p := q], k)).proc == Abs(s).proc[p := AbsProc(q)];
  }

  function AbsAction(q: Proc, a: Action): (g: SleepWakeup.Action)
    ensures SleepWakeup.OwnAction(g)
  {
    match a
    case WriteGiveUp => SleepWakeup.Release(LK)
    case ReadGiveUp => SleepWakeup.Release(LK)
    case Leave => SleepWakeup.Release(LK)
    case WriteFull => SleepWakeup.CallWakeup(NREAD)
    case WriteFault => SleepWakeup.CallWakeup(NREAD)
    case WriteDone => SleepWakeup.CallWakeup(NREAD)
    case ReadFault => SleepWakeup.CallWakeup(NWRITE)
    case ReadDone => SleepWakeup.CallWakeup(NWRITE)
    case CloseEnd => SleepWakeup.CallWakeup(if q.pc.Closing? && q.pc.writable then NREAD else NWRITE)
    case ReadSleep => SleepWakeup.CallSleep(NREAD, LK)
    case SleepAfter => SleepWakeup.CallSleep(NWRITE, LK)
    case NapLock => SleepWakeup.SleepLock
    case NapRelease => SleepWakeup.SleepRelease
    case NapSet => SleepWakeup.SleepSet
    case NapSwitch => SleepWakeup.SleepSwitch
    case NapResume => SleepWakeup.Resume
    case NapUnlock => SleepWakeup.WokenUnlock
    case NapRelock => SleepWakeup.Relock
    case _ => SleepWakeup.Acquire(LK)
  }

  lemma {:induction false} HeldMoves(p: nat)
    ensures AbsHeld(None)[LK := p] == AbsHeld(Some(p)) && AbsHeld(Some(p)) - {LK} == AbsHeld(None)
  {
  }

  predicate OfSleep(a: Action)
  {
    a == NapLock || a == NapRelease || a == NapSet || a == NapSwitch
  }

  predicate OfWaking(a: Action)
  {
    a == NapResume || a == NapUnlock || a == NapRelock
  }

  lemma {:induction false} SleepSimulates(p: nat, q: Proc, k: Ends, q': Proc, k': Ends, a: Action)
    requires ProcOk(p, q, k) && OfSleep(a) && Own(p, q, k, q', k', a)
    ensures SleepWakeup.Own(p, AbsProc(q), AbsHeld(k.spin), AbsProc(q'), AbsHeld(k'.spin), AbsAction(q, a))
  {
    HeldMoves(p);
    hide AbsHeld, Reason;
  }

  lemma {:induction false} WakingSimulates(p: nat, q: Proc, k: Ends, q': Proc, k': Ends, a: Action)
    requires ProcOk(p, q, k) && OfWaking(a) && Own(p, q, k, q', k', a)
    ensures SleepWakeup.Own(p, AbsProc(q), AbsHeld(k.spin), AbsProc(q'), AbsHeld(k'.spin), AbsAction(q, a))
  {
    HeldMoves(p);
    hide AbsHeld, Reason;
  }

  lemma {:induction false} OwnSimulates(p: nat, q: Proc, k: Ends, q': Proc, k': Ends, a: Action)
    requires ProcOk(p, q, k) && !OfSleep(a) && !OfWaking(a) && !a.WakeOne? && !a.Kill? && Own(p, q, k, q', k', a)
    ensures (AbsProc(q') == AbsProc(q) && AbsHeld(k'.spin) == AbsHeld(k.spin))
      || SleepWakeup.Own(p, AbsProc(q), AbsHeld(k.spin), AbsProc(q'), AbsHeld(k'.spin), AbsAction(q, a))
  {
    HeldMoves(p);
    hide AbsHeld, Reason;
  }

  /** Every step is one step of sleep and wakeup, or none. */
  lemma {:induction false} Simulates(s: State, s': State, p: nat, a: Action)
    requires Inv(s) && Act(s, s', p, a)
    ensures SleepWakeup.Step(Abs(s), Abs(s'))
  {
    hide Abs, Inv, Own, AbsHeld, SleepWakeup.Own;
    InvAt(s, p);
    if a.Kill? {
      AbsSet(s, a.k, s.proc[a.k].(asleep := false, killed := true), s.pipe);
      assert SleepWakeup.Act(Abs(s), Abs(s'), p, SleepWakeup.Kill(a.k));
    } else if a.WakeOne? {
      WakeSimulates(s, s', p);
    } else {
      if OfSleep(a) {
        SleepSimulates(p, s.proc[p], s.pipe, s'.proc[p], s'.pipe, a);
      } else if OfWaking(a) {
        WakingSimulates(p, s.proc[p], s.pipe, s'.proc[p], s'.pipe, a);
      } else {
        OwnSimulates(p, s.proc[p], s.pipe, s'.proc[p], s'.pipe, a);
      }
      AbsSet(s, p, s'.proc[p], s'.pipe);
      OwnStep(Abs(s), Abs(s'), p, AbsAction(s.proc[p], a));
    }
  }

  lemma {:induction false} InvAt(s: State, p: nat)
    requires Inv(s) && p < |s.proc|
    ensures ProcOk(p, s.proc[p], s.pipe)
  {
  }

  lemma {:induction false} OwnStep(g: SleepWakeup.State, g': SleepWakeup.State, p: nat, a: SleepWakeup.Action)
    requires p < |g.proc| == |g'.proc| && SleepWakeup.OwnAction(a) && g' == SleepWakeup.Set(g, p, g'.proc[p], g'.held)
    requires (g'.proc[p] == g.proc[p] && g'.held == g.held) || SleepWakeup.Own(p, g.proc[p], g.held, g'.proc[p], g'.held, a)
    ensures SleepWakeup.Step(g, g')
  {
    hide SleepWakeup.Own;
    if g'.proc[p] == g.proc[p] && g'.held == g.held {
      assert g.proc[p := g.proc[p]] == g.proc;
    } else {
      assert SleepWakeup.Act(g, g', p, a);
    }
  }

  lemma {:induction false} WakeSimulates(s: State, s': State, p: nat)
    requires Inv(s) && Act(s, s', p, WakeOne)
    ensures SleepWakeup.Step(Abs(s), Abs(s'))
  {
    hide Abs, Own, AbsHeld;
    var n, c := |s.proc|, s.proc[p].pc;
    var q' := s.proc[p].(pc := AfterWake(n, c));
    assert AbsProc(q') == AbsProc(s.proc[p]).(pc := SleepWakeup.AfterWake(n, c.chan, c.j));
    if c.j == p {
      AbsSet(s, p, q', s.pipe);
    } else {
      var q := s.proc[c.j];
      assert ProcOk(c.j, q, s.pipe);
      var q1 := q.(asleep := q.asleep && !(q.pc.Nap? && q.pc.chan == c.chan));
      AbsSet(s, c.j, q1, s.pipe);
      AbsSet(s.(proc := s.proc[c.j := q1]), p, q', s.pipe);
    }
    assert SleepWakeup.Act(Abs(s), Abs(s'), p, SleepWakeup.WakeOne);
  }

  ghost function AbsRun(run: seq<State>): (g: seq<SleepWakeup.State>)
    ensures |g| == |run| && forall i :: 0 <= i < |run| ==> g[i] == Abs(run[i])
  {
    seq(|run|, i requires 0 <= i < |run| => Abs(run[i]))
  }

  lemma {:induction false} RunSimulates(run: seq<State>)
    requires Run(run)
    ensures SleepWakeup.Run(AbsRun(run))
  {
    hide Abs, Act, SleepWakeup.Step;
    forall i | 0 <= i < |run| - 1
      ensures SleepWakeup.Step(AbsRun(run)[i], AbsRun(run)[i + 1])
    {
      RunInv(run, i);
      var p: nat, a :| Act(run[i], run[i + 1], p, a);
      Simulates(run[i], run[i + 1], p, a);
    }
  }

  // ---------------------------------------------------------------- who sleeps, and why

  predicate SleepsOn(s: State, p: nat, chan: nat)
  {
    p < |s.proc| && Sleepish(s.proc[p]) && s.proc[p].pc.chan == chan
  }

  /** Process p falls asleep for a reason, and stays on the same channel. */
  lemma {:induction false} FallsAsleep(s: State, s': State, p: nat, chan: nat)
    requires Inv(s) && Step(s, s') && SleepsOn(s', p, chan)
    ensures SleepsOn(s, p, chan) || (s'.proc[p].pc.stage.Called? && Reason(s'.pipe, chan))
  {
    hide Own, Inv;
    var e: nat, a :| Act(s, s', e, a);
    InvAt(s, e);
    if e == p && !a.WakeOne? && !a.Kill? {
      OwnFalls(p, s.proc[p], s.pipe, s'.proc[p], s'.pipe, a, chan);
    }
  }

  lemma {:induction false} OwnFalls(p: nat, q: Proc, k: Ends, q': Proc, k': Ends, a: Action, chan: nat)
    requires !a.WakeOne? && !a.Kill? && Own(p, q, k, q', k', a) && ProcOk(p, q, k) && Sleepish(q') && q'.pc.chan == chan
    ensures (Sleepish(q) && q.pc.chan == chan) || (q'.pc.stage.Called? && Reason(k', chan))
  {
  }

  lemma {:induction false} NobodyAtStart(s: State, p: nat, chan: nat)
    requires Start(s)
    ensures !SleepsOn(s, p, chan)
  {
  }

  /** Whoever is in sleep called it at some moment for a reason, and has been in it since. */
  lemma {:induction false} NapStart(run: seq<State>, k: nat, p: nat, chan: nat) returns (a: nat)
    requires Run(run) && k < |run| && SleepsOn(run[k], p, chan)
    ensures a <= k && p < |run[a].proc| && run[a].proc[p].pc.Nap? && run[a].proc[p].pc.stage.Called? && Reason(run[a].pipe, chan)
    ensures forall t :: a <= t <= k ==> SleepsOn(run[t], p, chan)
    decreases k
  {
    hide Step, Inv, Act, Reason, Start;
    if k == 0 {
      NobodyAtStart(run[0], p, chan);
    } else {
      RunInv(run, k - 1);
      assert Step(run[k - 1], run[k - 1 + 1]);
      FallsAsleep(run[k - 1], run[k], p, chan);
      if SleepsOn(run[k - 1], p, chan) {
        a := NapStart(run, k - 1, p, chan);
      } else {
        a := k;
      }
    }
  }

  /** Process e holds the lock and owes the sleepers on chan a wakeup: it may have taken, or stored, a byte. */
  predicate Owes(s: State, e: nat, chan: nat)
  {
    e < |s.proc| && if chan == NWRITE then s.proc[e].pc.Taking? else s.proc[e].pc.Writing? && s.pipe.readopen
  }

  predicate StartsWakeup(s: State, e: nat, chan: nat)
  {
    e < |s.proc| && s.proc[e].pc.Waking? && s.proc[e].pc.chan == chan && s.proc[e].pc.j == 0
  }

  lemma {:induction false} OwnSpoils(p: nat, q: Proc, k: Ends, q': Proc, k': Ends, a: Action, chan: nat)
    requires !a.WakeOne? && !a.Kill? && Own(p, q, k, q', k', a) && (chan == NREAD || chan == NWRITE)
    requires Reason(k, chan) && !Reason(k', chan)
    ensures (if chan == NWRITE then q'.pc.Taking? else q'.pc.Writing? && k'.readopen) || (q'.pc.Waking? && q'.pc.chan == chan && q'.pc.j == 0)
  {
  }

  /** Whoever takes the reason away owes a wakeup, or starts it. */
  lemma {:induction false} Spoils(s: State, s': State, chan: nat) returns (e: nat)
    requires Step(s, s') && (chan == NREAD || chan == NWRITE) && Reason(s.pipe, chan) && !Reason(s'.pipe, chan)
    ensures Owes(s', e, chan) || StartsWakeup(s', e, chan)
  {
    hide Own, Reason;
    var p: nat, a :| Act(s, s', p, a);
    e := p;
    if !a.WakeOne? && !a.Kill? {
      OwnSpoils(p, s.proc[p], s.pipe, s'.proc[p], s'.pipe, a, chan);
    }
  }

  lemma {:induction false} LastSpoiled(run: seq<State>, a: nat, k: nat, chan: nat) returns (m: nat, e: nat)
    requires Run(run) && a <= k < |run| && (chan == NREAD || chan == NWRITE) && Reason(run[a].pipe, chan) && !Reason(run[k].pipe, chan)
    ensures a < m <= k && (Owes(run[m], e, chan) || StartsWakeup(run[m], e, chan))
    ensures forall t :: m <= t <= k ==> !Reason(run[t].pipe, chan)
    decreases k
  {
    hide Step, Start, Reason, Owes, StartsWakeup;
    assert Step(run[k - 1], run[k - 1 + 1]);
    if Reason(run[k - 1].pipe, chan) {
      m := k;
      e := Spoils(run[k - 1], run[k], chan);
    } else {
      m, e := LastSpoiled(run, a, k - 1, chan);
    }
  }

  lemma {:induction false} OwnOwes(p: nat, q: Proc, k: Ends, q': Proc, k': Ends, a: Action, chan: nat)
    requires !a.WakeOne? && !a.Kill? && Own(p, q, k, q', k', a) && (chan == NREAD || chan == NWRITE)
    requires if chan == NWRITE then q.pc.Taking? else q.pc.Writing? && k.readopen
    ensures (if chan == NWRITE then q'.pc.Taking? else q'.pc.Writing? && k'.readopen)
      || (q'.pc.Waking? && q'.pc.chan == chan && q'.pc.j == 0)
      || (chan == NREAD && q.killed && q'.pc.Outside?)
  {
  }

  /** A killed writer leaves, without a wakeup. */
  predicate GivesUp(s: State, s': State, e: nat)
  {
    e < |s.proc| && e < |s'.proc| && s.proc[e].pc.Writing? && s.proc[e].killed && s'.proc[e].pc.Outside?
  }

  /** A debt lasts until the wakeup starts, unless a killed writer leaves without one. */
  lemma {:induction false} OwesStep(s: State, s': State, e: nat, chan: nat)
    requires Inv(s) && Step(s, s') && (chan == NREAD || chan == NWRITE) && Owes(s, e, chan)
    ensures Owes(s', e, chan) || StartsWakeup(s', e, chan) || (chan == NREAD && GivesUp(s, s', e))
  {
    hide Own, Inv;
    var p: nat, a :| Act(s, s', p, a);
    InvAt(s, e);
    InvAt(s, p);
    if !a.WakeOne? && !a.Kill? {
      if p == e {
        OwnOwes(p, s.proc[p], s.pipe, s'.proc[p], s'.pipe, a, chan);
      } else {
        OwnInv(p, s.proc[p], s.pipe, s'.proc[p], s'.pipe, a);
      }
    }
  }

  /** What has become of a debt: it still stands, or its wakeup was started at c, or the writer gave up at c. */
  lemma {:induction false} DebtPaid(run: seq<State>, m: nat, k: nat, e: nat, chan: nat) returns (c: nat)
    requires Run(run) && m <= k < |run| && (chan == NREAD || chan == NWRITE) && (Owes(run[m], e, chan) || StartsWakeup(run[m], e, chan))
    ensures
      || Owes(run[k], e, chan)
      || (m <= c <= k && StartsWakeup(run[c], e, chan))
      || (chan == NREAD && m <= c < k && GivesUp(run[c], run[c + 1], e))
    decreases k
  {
    hide Step, Start, Inv, Owes, StartsWakeup;
    c := m;
    if m < k && !StartsWakeup(run[m], e, chan) {
      c := DebtPaid(run, m, k - 1, e, chan);
      RunInv(run, k - 1);
      assert Step(run[k - 1], run[k - 1 + 1]);
      if Owes(run[k - 1], e, chan) {
        OwesStep(run[k - 1], run[k], e, chan);
        c := if StartsWakeup(run[k], e, chan) then k else k - 1;
      }
    }
  }

  /** The holder of the lock owes the sleepers on chan a wakeup, or is in it and has not come past p. */
  ghost predicate WillWake(s: State, p: nat, chan: nat)
  {
    s.pipe.spin.Some? && s.pipe.spin.value < |s.proc| && var e := s.pipe.spin.value;
    Owes(s, e, chan) || (s.proc[e].pc.Waking? && s.proc[e].pc.chan == chan && s.proc[e].pc.j <= p)
  }

  /** At step g a killed writer leaves, without a wakeup, while p sleeps for bytes that are there, or that will never come. */
  ghost predicate Strands(run: seq<State>, g: nat, e: nat, p: nat)
    requires g + 1 < |run|
  {
    GivesUp(run[g], run[g + 1], e) && SleepsOn(run[g], p, NREAD) && (run[g].pipe.count > 0 || !run[g].pipe.writeopen)
  }

  /**
    In every state of every run, whoever is in sleep on the pipe has a reason to, or is about to be
    woken by the holder of the lock, or is a reader that a killed writer left behind.
   */
  lemma {:induction false} SleepersHaveReason(run: seq<State>, k: nat, p: nat, chan: nat)
    requires Run(run) && k < |run| && SleepsOn(run[k], p, chan)
    ensures
      || (chan == NWRITE && run[k].pipe.count == Pipe.PIPESIZE && run[k].pipe.readopen)
      || (chan == NREAD && run[k].pipe.count == 0 && run[k].pipe.writeopen)
      || WillWake(run[k], p, chan)
      || (chan == NREAD && exists g: nat, e :: g < k && Strands(run, g, e, p))
  {
    hide Run, Inv, Abs, Reason, WillWake, Owes, StartsWakeup, GivesUp, SleepsOn;
    hide SleepWakeup.Run, SleepWakeup.SleepsOn, SleepWakeup.InSleep, SleepWakeup.InWakeup, SleepWakeup.WillReach;
    RunInv(run, k);
    SleepChan(run[k], p, chan);
    Reasons(run[k].pipe);
    if !Reason(run[k].pipe, chan) {
      var a := NapStart(run, k, p, chan);
      var m, e := LastSpoiled(run, a, k, chan);
      var c := DebtPaid(run, m, k, e, chan);
      if Owes(run[k], e, chan) {
        Debtor(run[k], e, p, chan);
      } else if m <= c <= k && StartsWakeup(run[c], e, chan) {
        SleeperReached(run, a, c, k, p, e, chan);
      } else {
        Reasons(run[c].pipe);
        assert Strands(run, c, e, p);
      }
    }
  }

  lemma {:induction false} Reasons(k: Ends)
    ensures Reason(k, NWRITE) <==> k.count == Pipe.PIPESIZE && k.readopen
    ensures Reason(k, NREAD) <==> k.count == 0 && k.writeopen
  {
  }

  lemma {:induction false} SleepChan(s: State, p: nat, chan: nat)
    requires Inv(s) && SleepsOn(s, p, chan)
    ensures chan == NREAD || chan == NWRITE
  {
    InvAt(s, p);
  }

  /** What sleep and wakeup promise of a process e that starts to wake chan at c. */
  lemma {:induction false} SleeperReached(run: seq<State>, a: nat, c: nat, k: nat, p: nat, e: nat, chan: nat)
    requires Run(run) && a <= c <= k < |run| && StartsWakeup(run[c], e, chan) && forall t :: a <= t <= k ==> SleepsOn(run[t], p, chan)
    ensures WillWake(run[k], p, chan)
  {
    hide Run, Inv, Abs, WillWake, StartsWakeup, SleepsOn;
    hide SleepWakeup.Run, SleepWakeup.SleepsOn, SleepWakeup.InSleep, SleepWakeup.InWakeup, SleepWakeup.WillReach;
    RunInv(run, c);
    RunInv(run, k);
    WakerAt(run[c], e, chan);
    AwakeAtWakeup(run[c], e, p, chan);
    RunSimulates(run);
    SleeperAt(run[a], p, chan);
    forall t | a < t <= k
      ensures SleepWakeup.InSleep(AbsRun(run)[t], p)
    {
      SleeperAt(run[t], p, chan);
    }
    SleepWakeup.StillToReach(AbsRun(run), a, c, c, k, p, e, chan, LK);
    WakerLeft(run[k], e, p, chan);
  }

  lemma {:induction false} Debtor(s: State, e: nat, p: nat, chan: nat)
    requires Inv(s) && Owes(s, e, chan)
    ensures WillWake(s, p, chan)
  {
    InvAt(s, e);
  }

  lemma {:induction false} WakerAt(s: State, e: nat, chan: nat)
    requires Inv(s) && StartsWakeup(s, e, chan)
    ensures LK in Abs(s).held && Abs(s).held[LK] == e
    ensures SleepWakeup.InWakeup(Abs(s), e) && Abs(s).proc[e].pc == SleepWakeup.Waking(chan, 0)
  {
    InvAt(s, e);
  }

  lemma {:induction false} AwakeAtWakeup(s: State, e: nat, p: nat, chan: nat)
    requires StartsWakeup(s, e, chan) && SleepsOn(s, p, chan)
    ensures e != p
  {
  }

  lemma {:induction false} SleeperAt(s: State, p: nat, chan: nat)
    requires SleepsOn(s, p, chan)
    ensures SleepWakeup.SleepsOn(Abs(s), p, chan, LK) && SleepWakeup.InSleep(Abs(s), p)
  {
  }

  lemma {:induction false} WakerLeft(s: State, e: nat, p: nat, chan: nat)
    requires Inv(s) && SleepWakeup.WillReach(Abs(s), e, p, chan)
    ensures WillWake(s, p, chan)
  {
    InvAt(s, e);
  }

  /** With pi->lock free, a writer sleeps only on a full pipe that has a reader. */
  lemma {:induction false} WritersSafe(run: seq<State>, k: nat, p: nat)
    requires Run(run) && k < |run| && SleepsOn(run[k], p, NWRITE) && run[k].pipe.spin == None
    ensures run[k].pipe.count == Pipe.PIPESIZE && run[k].pipe.readopen
  {
    hide Run;
    SleepersHaveReason(run, k, p, NWRITE);
  }

  /** With the lock free, a reader sleeps at k although there is a byte to read, or no writer. */
  ghost predicate Stranded(run: seq<State>, k: nat, p: nat)
    requires k < |run|
  {
    run[k].pipe.spin == None && SleepsOn(run[k], p, NREAD) && (run[k].pipe.count > 0 || !run[k].pipe.writeopen)
  }

  /**
    With pi->lock free, readers sleep only on an empty pipe that has a writer, throughout a run, if
    and only if no writer that has been killed ever takes the early exit of pipewrite while a
    reader sleeps although bytes are there or no writer is.
   */
  lemma {:induction false} ReadersSafe(run: seq<State>)
    requires Run(run)
    ensures (forall k, p :: 0 <= k < |run| ==> !Stranded(run, k, p)) <==> (forall g, e, p :: 0 <= g < |run| - 1 ==> !Strands(run, g, e, p))
  {
    hide Run, Reason, SleepsOn;
    forall g: nat, e: nat, p: nat | g < |run| - 1 && Strands(run, g, e, p)
      ensures Stranded(run, g + 1, p)
    {
      StrandedNext(run, g, e, p);
    }
    forall k: nat, p: nat | k < |run| && Stranded(run, k, p)
      ensures exists g: nat, e :: g < k && Strands(run, g, e, p)
    {
      SleepersHaveReason(run, k, p, NREAD);
    }
  }

  lemma {:induction false} StrandedNext(run: seq<State>, g: nat, e: nat, p: nat)
    requires Run(run) && g < |run| - 1 && Strands(run, g, e, p)
    ensures Stranded(run, g + 1, p)
  {
    hide Act, Start, Inv, Reason, SleepsOn;
    RunInv(run, g);
    assert Step(run[g], run[g + 1]);
    LeftBehind(run[g], run[g + 1], e, p);
  }

  lemma {:induction false} LeftBehind(s: State, s': State, e: nat, p: nat)
    requires Inv(s) && Step(s, s') && GivesUp(s, s', e) && SleepsOn(s, p, NREAD)
    ensures s'.pipe == s.pipe.(spin := None) && SleepsOn(s', p, NREAD)
  {
    hide Own, Inv;
    var q: nat, a :| Act(s, s', q, a);
    InvAt(s, e);
    if q == e && !a.WakeOne? && !a.Kill? {
      OwnGivesUp(e, s.proc[e], s.pipe, s'.proc[e], s'.pipe, a);
    }
  }

  lemma {:induction false} OwnGivesUp(p: nat, q: Proc, k: Ends, q': Proc, k': Ends, a: Action)
    requires !a.WakeOne? && !a.Kill? && Own(p, q, k, q', k', a) && q.pc.Writing? && q'.pc.Outside?
    ensures k' == k.(spin := None)
  {
  }

  // ---------------------------------------------------------------- what one stretch under the lock does

  /** A process and the pipe, between two steps of the process. */
  datatype Point = Point(q: Proc, k: Ends)

  predicate InCall(c: Pc)
  {
    c.Writing? || c.Reading? || c.Taking?
  }

  /** Steps of process p alone through pipewrite's or piperead's loops, no copy failing, to where it sleeps, wakes others or leaves. */
  ghost predicate Stretch(p: nat, pts: seq<Point>)
  {
    && |pts| > 0 && !InCall(pts[|pts| - 1].q.pc)
    && forall i :: 0 <= i < |pts| - 1 ==> InCall(pts[i].q.pc) && OwnGoes(p, pts[i], pts[i + 1])
  }

  ghost predicate OwnGoes(p: nat, x: Point, y: Point)
  {
    exists a: Action :: !a.WakeOne? && !a.Kill? && !a.WriteFault? && !a.ReadFault? && Own(p, x.q, x.k, y.q, y.k, a)
  }

  /** The loop test of piperead: sleep, or give up, exactly on an empty pipe with a writer, and go on otherwise. */
  lemma {:induction false} ReadTurn(p: nat, x: Point, y: Point)
    requires OwnGoes(p, x, y) && x.q.pc.Reading?
    ensures
      if x.k.count == 0 && x.k.writeopen then
        if x.q.killed then y == Point(x.q.(pc := Outside), x.k.(spin := None)) else y == Point(x.q.(pc := Nap(Called, NREAD, x.q.pc.left)), x.k)
      else y == Point(x.q.(pc := Taking(x.q.pc.left)), x.k)
  {
  }

  lemma {:induction false} TakeTurn(p: nat, x: Point, y: Point)
    requires OwnGoes(p, x, y) && x.q.pc.Taking?
    ensures
      if x.q.pc.left == 0 || x.k.count == 0 then y == Point(x.q.(pc := Waking(NWRITE, 0, ToLeave)), x.k)
      else y == Point(x.q.(pc := Taking(x.q.pc.left - 1)), x.k.(count := x.k.count - 1))
  {
  }

  /** One turn of pipewrite's loop. */
  lemma {:induction false} WriteTurn(p: nat, x: Point, y: Point)
    requires OwnGoes(p, x, y) && x.q.pc.Writing?
    ensures
      var left := x.q.pc.left;
      if left == 0 then y == Point(x.q.(pc := Waking(NREAD, 0, ToLeave)), x.k)
      else if !x.k.readopen || x.q.killed then y == Point(x.q.(pc := Outside), x.k.(spin := None))
      else if x.k.count == Pipe.PIPESIZE then y == Point(x.q.(pc := Waking(NREAD, 0, ToSleep(left))), x.k)
      else y == Point(x.q.(pc := Writing(left - 1)), x.k.(count := x.k.count + 1))
  {
  }

  /** Wherever it is in its loops, a process can go on. */
  lemma {:induction false} CanGo(p: nat, x: Point) returns (y: Point)
    requires InCall(x.q.pc)
    ensures OwnGoes(p, x, y)
  {
    var q, k := x.q, x.k;
    if q.pc.Reading? {
      var a := if k.count > 0 || !k.writeopen then ReadGo else if q.killed then ReadGiveUp else ReadSleep;
      y := if a.ReadGo? then Point(q.(pc := Taking(q.pc.left)), k)
           else if a.ReadGiveUp? then Point(q.(pc := Outside), k.(spin := None)) else Point(q.(pc := Nap(Called, NREAD, q.pc.left)), k);
      assert Own(p, q, k, y.q, y.k, a);
    } else if q.pc.Taking? {
      var a := if q.pc.left > 0 && k.count > 0 then ReadByte else ReadDone;
      y := if a.ReadByte? then Point(q.(pc := Taking(q.pc.left - 1)), k.(count := k.count - 1)) else Point(q.(pc := Waking(NWRITE, 0, ToLeave)), k);
      assert Own(p, q, k, y.q, y.k, a);
    } else {
      y := WriterGoes(p, x);
    }
  }

  lemma {:induction false} WriterGoes(p: nat, x: Point) returns (y: Point)
    requires x.q.pc.Writing?
    ensures OwnGoes(p, x, y)
  {
    var q, k := x.q, x.k;
    var a := if q.pc.left == 0 then WriteDone else if !k.readopen || q.killed then WriteGiveUp else if k.count == Pipe.PIPESIZE then WriteFull else WriteByte;
    y := if a.WriteDone? then Point(q.(pc := Waking(NREAD, 0, ToLeave)), k)
         else if a.WriteGiveUp? then Point(q.(pc := Outside), k.(spin := None))
         else if a.WriteFull? then Point(q.(pc := Waking(NREAD, 0, ToSleep(q.pc.left))), k)
         else Point(q.(pc := Writing(q.pc.left - 1)), k.(count := k.count + 1));
    assert Own(p, q, k, y.q, y.k, a);
  }

  function Min(a: nat, b: nat): (m: nat)
  {
    if a < b then a else b
  }

  lemma {:induction false} TakeStretch(p: nat, pts: seq<Point>)
    requires Stretch(p, pts) && pts[0].q.pc.Taking?
    ensures var x, y := pts[0], pts[|pts| - 1]; y == Point(x.q.(pc := Waking(NWRITE, 0, ToLeave)), x.k.(count := x.k.count - Min(x.q.pc.left, x.k.count)))
    decreases |pts|
  {
    hide Own, OwnGoes;
    assert OwnGoes(p, pts[0], pts[0 + 1]);
    TakeTurn(p, pts[0], pts[1]);
    TailStretch(p, pts);
    if pts[1].q.pc.Taking? {
      TakeStretch(p, pts[1..]);
    } else {
      StretchOver(p, pts[1..]);
    }
  }

  lemma {:induction false} TailStretch(p: nat, pts: seq<Point>)
    requires Stretch(p, pts) && |pts| > 1
    ensures Stretch(p, pts[1..]) && pts[1..][|pts| - 2] == pts[|pts| - 1] && pts[1..][0] == pts[1]
  {
    hide Own, OwnGoes;
    forall i | 0 <= i < |pts| - 2
      ensures InCall(pts[1..][i].q.pc) && OwnGoes(p, pts[1..][i], pts[1..][i + 1])
    {
      assert OwnGoes(p, pts[i + 1], pts[i + 1 + 1]);
    }
  }

  lemma {:induction false} StretchOver(p: nat, pts: seq<Point>)
    requires Stretch(p, pts) && !InCall(pts[0].q.pc)
    ensures |pts| == 1
  {
    hide Own, OwnGoes;
  }

  /** A whole stretch of piperead by a process that is not killed: asleep exactly on an empty pipe with a writer, or all there was, up to n. */
  lemma {:induction false} ReadStretch(p: nat, pts: seq<Point>, n: nat)
    requires Stretch(p, pts) && pts[0].q.pc == Reading(n) && !pts[0].q.killed
    ensures var x, y := pts[0], pts[|pts| - 1];
      if x.k.count == 0 && x.k.writeopen then y == Point(x.q.(pc := Nap(Called, NREAD, n)), x.k)
      else y == Point(x.q.(pc := Waking(NWRITE, 0, ToLeave)), x.k.(count := x.k.count - Min(n, x.k.count)))
  {
    hide Own, OwnGoes;
    assert OwnGoes(p, pts[0], pts[0 + 1]);
    ReadTurn(p, pts[0], pts[1]);
    TailStretch(p, pts);
    if pts[1].q.pc.Taking? {
      TakeStretch(p, pts[1..]);
    } else {
      StretchOver(p, pts[1..]);
    }
  }

  /** A whole stretch of pipewrite by a process that is not killed: all n bytes, or as many as fit, or none without a reader. */
  lemma {:induction false} WriteStretch(p: nat, pts: seq<Point>, n: nat)
    requires Stretch(p, pts) && pts[0].q.pc == Writing(n) && !pts[0].q.killed && pts[0].k.count <= Pipe.PIPESIZE
    ensures var x, y, room := pts[0], pts[|pts| - 1], Pipe.PIPESIZE - pts[0].k.count;
      if n == 0 then y == Point(x.q.(pc := Waking(NREAD, 0, ToLeave)), x.k)
      else if !x.k.readopen then y == Point(x.q.(pc := Outside), x.k.(spin := None))
      else if n <= room then y == Point(x.q.(pc := Waking(NREAD, 0, ToLeave)), x.k.(count := x.k.count + n))
      else y == Point(x.q.(pc := Waking(NREAD, 0, ToSleep(n - room))), x.k.(count := Pipe.PIPESIZE))
    decreases |pts|
  {
    hide Own, OwnGoes;
    assert OwnGoes(p, pts[0], pts[0 + 1]);
    WriteTurn(p, pts[0], pts[1]);
    TailStretch(p, pts);
    if pts[1].q.pc.Writing? {
      WriteStretch(p, pts[1..], n - 1);
    } else {
      StretchOver(p, pts[1..]);
    }
  }

  /** The bytes of a pipe, counted. */
  ghost predicate Counts(pi: Pipe.Pipe, k: Ends)
    reads pi, pi.data
  {
    pi.Valid() && |pi.consumed| <= |pi.produced| && k.count == |pi.produced| - |pi.consumed| && k.readopen == pi.readopen && k.writeopen == pi.writeopen
  }

  /** piperead over the bytes and the stretch here agree: on sleeping, on how many bytes are taken, and on the pipe afterwards. */
  method ReadAgrees(pi: Pipe.Pipe, n: nat, ghost p: nat, ghost pts: seq<Point>) returns (got: Option<seq<Byte>>)
    requires Stretch(p, pts) && pts[0].q.pc == Reading(n) && !pts[0].q.killed && Counts(pi, pts[0].k)
    modifies pi`nread, pi`consumed
    ensures Counts(pi, pts[|pts| - 1].k)
    ensures got.None? <==> pts[|pts| - 1].q.pc.Nap?
    ensures got.Some? ==> |got.value| == pts[0].k.count - pts[|pts| - 1].k.count
  {
    hide Stretch, Pipe.Holds, Pipe.Wrap;
    ReadStretch(p, pts, n);
    InRing(pi);
    got := pi.Read(n);
    InRing(pi);
  }

  /** So do pipewrite and its stretch. */
  method WriteAgrees(pi: Pipe.Pipe, src: seq<Byte>, i0: nat, ghost p: nat, ghost pts: seq<Point>) returns (i: nat, w: Pipe.Written)
    requires i0 <= |src| && Stretch(p, pts) && pts[0].q.pc == Writing(|src| - i0) && !pts[0].q.killed && Counts(pi, pts[0].k)
    modifies pi`nwrite, pi`produced, pi.data
    ensures Counts(pi, pts[|pts| - 1].k) && i0 <= i <= |src|
    ensures w == Pipe.Done <==> pts[|pts| - 1].q.pc == Waking(NREAD, 0, ToLeave)
    ensures w == Pipe.Full <==> i < |src| && pts[|pts| - 1].q.pc == Waking(NREAD, 0, ToSleep(|src| - i))
    ensures w == Pipe.ReaderGone <==> pts[|pts| - 1].q.pc.Outside?
  {
    hide Stretch, Pipe.Holds, Pipe.Wrap;
    InRing(pi);
    WriteStretch(p, pts, |src| - i0);
    i, w := pi.Write(src, i0);
    InRing(pi);
  }

  lemma {:induction false} InRing(pi: Pipe.Pipe)
    requires pi.Valid()
    ensures |pi.consumed| <= |pi.produced| <= |pi.consumed| + Pipe.PIPESIZE
    ensures pi.consumed == pi.produced[..|pi.consumed|]
  {
    Pipe.InPipe(pi.data[..], pi.produced, pi.consumed);
  }

  // ---------------------------------------------------------------- the killed writer

  /** A run goes on with a step of process p. */
  lemma {:induction false} Goes(run: seq<State>, p: nat, q: Proc, k: Ends, a: Action) returns (run': seq<State>)
    requires Run(run) && !a.WakeOne? && !a.Kill? && var s := run[|run| - 1]; p < |s.proc| && Own(p, s.proc[p], s.pipe, q, k, a)
    ensures Run(run') && |run'| > 0 && run'[|run'| - 1] == State(run[|run| - 1].proc[p := q], k)
  {
    hide Own, Start;
    var s := run[|run| - 1];
    var s' := State(s.proc[p := q], k);
    assert Act(s, s', p, a);
    run' := run + [s'];
    StepsJoin(run, s');
  }

  lemma {:induction false} StepsJoin(run: seq<State>, s': State)
    requires Run(run) && Step(run[|run| - 1], s')
    ensures Run(run + [s'])
  {
    hide Step, Start;
    assert (run + [s'])[0] == run[0];
  }

  /** Three processes, the first of them at q. */
  function With(q: Proc, k: Ends): (s: State)
  {
    var o := Proc(Outside, false, None, false);
    State([q, o, o], k)
  }

  lemma {:induction false} FirstGoes(run: seq<State>, q: Proc, k: Ends, q': Proc, k': Ends, a: Action) returns (run': seq<State>)
    requires Run(run) && run[|run| - 1] == With(q, k) && !a.WakeOne? && !a.Kill? && Own(0, q, k, q', k', a)
    ensures Run(run') && |run'| > 0 && run'[|run'| - 1] == With(q', k')
  {
    hide Own, Start, Step;
    run' := Goes(run, 0, q', k', a);
    assert With(q, k).proc[0 := q'] == With(q', k').proc;
  }

  /** Process 0 reads from an empty pipe and calls sleep. */
  lemma {:induction false} ReaderCalls() returns (run: seq<State>)
    ensures Run(run) && |run| > 0 && run[|run| - 1] == With(Proc(Nap(Hold, NREAD, 1), false, Some(0), false), Ends(Some(0), 0, true, true))
  {
    hide Run, With;
    var q0, k0, k1 := Proc(Outside, false, None, false), Ends(None, 0, true, true), Ends(Some(0), 0, true, true);
    var q1, q2, q3 := q0.(pc := Reading(1)), q0.(pc := Nap(Called, NREAD, 1)), q0.(pc := Nap(Hold, NREAD, 1), lock := Some(0));
    run := FirstState();
    run := FirstGoes(run, q0, k0, q1, k1, StartRead(1));
    run := FirstGoes(run, q1, k1, q2, k1, ReadSleep);
    run := FirstGoes(run, q2, k1, q3, k1, NapLock);
  }

  /** And falls asleep. */
  lemma {:induction false} ReaderAsleep() returns (run: seq<State>)
    ensures Run(run) && |run| > 0 && run[|run| - 1] == With(Proc(Nap(Asleep, NREAD, 1), true, None, false), Ends(None, 0, true, true))
  {
    hide Run, With;
    var q3, k0, k1 := Proc(Nap(Hold, NREAD, 1), false, Some(0), false), Ends(None, 0, true, true), Ends(Some(0), 0, true, true);
    var q4, q5, q6 := q3.(pc := Nap(Released, NREAD, 1)), q3.(pc := Nap(Sleeping, NREAD, 1), asleep := true), Proc(Nap(Asleep, NREAD, 1), true, None, false);
    run := ReaderCalls();
    run := FirstGoes(run, q3, k1, q4, k0, NapRelease);
    run := FirstGoes(run, q4, k0, q5, k0, NapSet);
    run := FirstGoes(run, q5, k0, q6, k0, NapSwitch);
  }

  lemma {:induction false} FirstState() returns (run: seq<State>)
    ensures Run(run) && |run| > 0 && run[|run| - 1] == With(Proc(Outside, false, None, false), Ends(None, 0, true, true))
  {
    run := [With(Proc(Outside, false, None, false), Ends(None, 0, true, true))];
  }

  lemma {:induction false} Killed(run: seq<State>, p: nat, e: nat) returns (run': seq<State>)
    requires Run(run) && var s := run[|run| - 1]; p < |s.proc| && e < |s.proc| && s.proc[p].pc.Outside? && s.proc[e].lock == None
    ensures Run(run') && |run'| > 0
    ensures var s := run[|run| - 1]; run'[|run'| - 1] == s.(proc := s.proc[e := s.proc[e].(asleep := false, killed := true)])
  {
    hide Start;
    var s := run[|run| - 1];
    var s' := s.(proc := s.proc[e := s.proc[e].(asleep := false, killed := true)]);
    assert Act(s, s', p, Kill(e));
    run' := run + [s'];
    StepsJoin(run, s');
  }

  /**
    The exception for readers is real: process 1 stores one of two bytes, is killed by process 2,
    and leaves without a wakeup; process 0, not killed, sleeps on, with a byte in the pipe and
    the lock free.
   */
  lemma {:induction false} KilledWriterStrandsReader() returns (run: seq<State>, k: nat)
    ensures Run(run) && k < |run| && SleepsOn(run[k], 0, NREAD) && run[k].pipe.spin == None && run[k].pipe.count == 1
    ensures !run[k].proc[0].killed && Stranded(run, k, 0)
  {
    hide Run;
    var o, mine := Proc(Outside, false, None, false), Ends(Some(1), 0, true, true);
    run := ReaderAsleep();
    run := Goes(run, 1, o.(pc := Writing(2)), mine, StartWrite(2));
    run := Goes(run, 1, o.(pc := Writing(1)), mine.(count := 1), WriteByte);
    run := Killed(run, 2, 1);
    run := Goes(run, 1, o.(killed := true), Ends(None, 1, true, true), WriteGiveUp);
    k := |run| - 1;
  }
}

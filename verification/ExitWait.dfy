/**
  fork, exit, wait2 and reparent as interleaved steps of any number of processes. A step is what
  happens between two lock operations; wait_lock and every p->lock are explicit, and wakeup takes
  each p->lock in turn. Process initp is init.
 */
module ExitWait {
  import opened Blocks

  datatype PState = UNUSED | USED | SLEEPING | RUNNABLE | RUNNING | ZOMBIE

  datatype Chan = NoChan | OfProc(p: nat) | Elsewhere

  /** Where a process is: in user space or another system call, or at a point of fork, exit or wait2. */
  datatype Pc =
    | Idle
    | User
    | ForkHold(n: nat)               // holds the new process's lock
    | ForkLink(n: nat)               // is about to set the new process's parent
    | ForkStart(n: nat)              // is about to make it runnable
    | ExitReparent(i: nat)           // reparent's loop
    | ExitWakeInit(i: nat, j: nat)   // wakeup(initproc) within it
    | ExitWakeParent(j: nat)         // wakeup(p->parent)
    | ExitZombie                     // holds wait_lock and its own lock
    | ExitSched                      // holds its own lock
    | Dead
    | WaitScan(i: nat, kids: bool)   // wait2's scan
    | WaitCall                       // in sleep, with wait_lock
    | WaitHold                       // with wait_lock and its own lock
    | WaitLocked                     // with its own lock, not yet SLEEPING
    | WaitSleeping                   // SLEEPING, its own lock not yet released by the scheduler
    | Asleep
    | WaitWoken                      // running again, with its own lock
    | WaitAgain                      // about to take wait_lock again

  datatype State = State(
    initp: nat,
    state: seq<PState>, parent: seq<Option<nat>>, chan: seq<Chan>, pid: seq<nat>, killed: seq<bool>, pc: seq<Pc>,
    lock: seq<Option<nat>>, waitLock: Option<nat>, nextpid: nat, reaped: set<nat>)

  predicate Sized(s: State)
  {
    && |s.parent| == |s.state| && |s.chan| == |s.state| && |s.pid| == |s.state| && |s.pc| == |s.state| && |s.lock| == |s.state|
    && |s.killed| == |s.state| && s.initp < |s.state|
  }

  predicate HoldsWait(c: Pc)
  {
    c.ExitReparent? || c.ExitWakeInit? || c.ExitWakeParent? || c.ExitZombie? || c.WaitScan? || c.WaitCall? || c.WaitHold?
  }

  /** Does process p at c hold the lock of process i? */
  predicate HoldsLock(c: Pc, p: nat, i: nat)
  {
    || (i == p && (c.ExitZombie? || c.ExitSched? || c.WaitHold? || c.WaitLocked? || c.WaitSleeping? || c.WaitWoken?))
    || c == ForkHold(i)
  }

  predicate Forking(c: Pc)
  {
    c.ForkHold? || c.ForkLink? || c.ForkStart?
  }

  predicate Exiting(c: Pc)
  {
    c.ExitReparent? || c.ExitWakeInit? || c.ExitWakeParent?
  }

  /** On the way into sleep, or asleep and not woken yet. */
  predicate Sleepish(c: Pc, st: PState)
  {
    c.WaitCall? || c.WaitHold? || c.WaitLocked? || c.WaitSleeping? || (c.Asleep? && st == SLEEPING)
  }

  predicate Alive(st: PState)
  {
    st == SLEEPING || st == RUNNABLE || st == RUNNING
  }

  /** What state a process at c is in. */
  predicate StateAt(c: Pc, st: PState)
  {
    match c
    case Idle => st == UNUSED || st == USED
    case User => Alive(st)
    case ForkHold(_) => st == RUNNING
    case ForkLink(_) => st == RUNNING || st == RUNNABLE
    case ForkStart(_) => st == RUNNING || st == RUNNABLE
    case ExitZombie => st == ZOMBIE
    case ExitSched => st == ZOMBIE
    case Dead => st == ZOMBIE
    case WaitSleeping => st == SLEEPING
    case Asleep => st == SLEEPING || st == RUNNABLE
    case WaitAgain => st == RUNNING || st == RUNNABLE
    case _ => st == RUNNING
  }

  // ---------------------------------------------------------------- the invariant

  /** The locks are held by those whose place says so. */
  ghost predicate LocksOk(pc: seq<Pc>, lock: seq<Option<nat>>, waitLock: Option<nat>)
    requires |lock| == |pc|
  {
    && (forall p :: 0 <= p < |pc| ==> (HoldsWait(pc[p]) <==> waitLock == Some(p)))
    && (forall p, i :: 0 <= p < |pc| && 0 <= i < |pc| ==> (HoldsLock(pc[p], p, i) <==> lock[i] == Some(p)))
    && (forall i :: 0 <= i < |pc| && lock[i].Some? ==> lock[i].value < |pc|)
  }

  ghost predicate StatesOk(state: seq<PState>, pc: seq<Pc>, chan: seq<Chan>, initp: nat)
    requires |state| == |pc| == |chan| && initp < |pc|
  {
    && Alive(state[initp])
    && (forall p :: 0 <= p < |pc| ==> StateAt(pc[p], state[p]))
    && (forall p :: 0 <= p < |pc| && Exiting(pc[p]) ==> p != initp)
    && (forall p :: 0 <= p < |pc| && (pc[p].WaitSleeping? || pc[p].Asleep?) ==> chan[p] == OfProc(p))
  }

  /** A parent is alive, and every process that ever ran, other than init, has one. */
  ghost predicate ParentsOk(state: seq<PState>, parent: seq<Option<nat>>, initp: nat)
    requires |state| == |parent|
  {
    && (forall c :: 0 <= c < |state| && parent[c].Some? ==> parent[c].value < |state| && Alive(state[parent[c].value]))
    && (forall c :: 0 <= c < |state| && c != initp && (Alive(state[c]) || state[c] == ZOMBIE) ==> parent[c].Some?)
    && (forall c :: 0 <= c < |state| && state[c] == UNUSED ==> parent[c] == None)
  }

  /** A process being made belongs to one forker, and has no parent before it is linked. */
  ghost predicate ForksOk(state: seq<PState>, parent: seq<Option<nat>>, pc: seq<Pc>)
    requires |state| == |parent| == |pc|
  {
    && (forall p :: 0 <= p < |pc| && Forking(pc[p]) ==>
          pc[p].n < |pc| && state[pc[p].n] == USED && parent[pc[p].n] == if pc[p].ForkStart? then Some(p) else None)
    && (forall p, q :: 0 <= p < |pc| && 0 <= q < |pc| && Forking(pc[p]) && Forking(pc[q]) && pc[p].n == pc[q].n ==> p == q)
  }

  /** Process k may still be a child of a process at c. */
  predicate MayHaveChild(c: Pc, k: nat)
  {
    (c.ExitReparent? ==> k >= c.i) && (c.ExitWakeInit? ==> k > c.i) && !c.ExitWakeParent?
  }

  /** How far reparent has come. */
  ghost predicate ReparentOk(parent: seq<Option<nat>>, pc: seq<Pc>)
    requires |parent| == |pc|
  {
    forall e, k :: 0 <= e < |pc| && 0 <= k < |pc| && parent[k] == Some(e) ==> MayHaveChild(pc[e], k)
  }

  /** The scan has met no zombie so far. */
  ghost predicate ScanOk(state: seq<PState>, parent: seq<Option<nat>>, pc: seq<Pc>)
    requires |state| == |parent| == |pc|
  {
    forall p, c :: 0 <= p < |pc| && 0 <= c < |pc| && pc[p].WaitScan? && c < pc[p].i && parent[c] == Some(p) ==> state[c] != ZOMBIE
  }

  /** In sleep in wait2, or on the way out of it. */
  predicate InWait(c: Pc)
  {
    c.WaitCall? || c.WaitHold? || c.WaitLocked? || c.WaitSleeping? || c.Asleep? || c.WaitWoken? || c.WaitAgain?
  }

  /** Process p has a child among the first n. */
  ghost predicate HasChild(parent: seq<Option<nat>>, p: nat, n: nat)
  {
    exists c :: 0 <= c < n && c < |parent| && parent[c] == Some(p)
  }

  /** A scan knows whether it has met a child, and one who sleeps in wait2 has a child. */
  ghost predicate KidsAt(parent: seq<Option<nat>>, p: nat, c: Pc)
  {
    && (c.WaitScan? ==> (c.kids <==> HasChild(parent, p, c.i)))
    && (InWait(c) ==> HasChild(parent, p, |parent|))
  }

  ghost predicate KidsOk(parent: seq<Option<nat>>, pc: seq<Pc>)
  {
    forall p :: 0 <= p < |pc| ==> KidsAt(parent, p, pc[p])
  }

  /** Process numbers are never reused, and one is collected at most once. */
  ghost predicate PidsOk(state: seq<PState>, pid: seq<nat>, nextpid: nat, reaped: set<nat>)
    requires |state| == |pid|
  {
    && (forall p :: 0 <= p < |pid| && state[p] != UNUSED ==> pid[p] < nextpid && pid[p] !in reaped)
    && (forall p, q :: 0 <= p < q < |pid| && state[p] != UNUSED && state[q] != UNUSED ==> pid[p] != pid[q])
    && (forall n :: n in reaped ==> n < nextpid)
  }

  ghost predicate Inv(s: State)
  {
    && Sized(s)
    && LocksOk(s.pc, s.lock, s.waitLock)
    && StatesOk(s.state, s.pc, s.chan, s.initp)
    && ParentsOk(s.state, s.parent, s.initp)
    && ForksOk(s.state, s.parent, s.pc)
    && ReparentOk(s.parent, s.pc)
    && ScanOk(s.state, s.parent, s.pc)
    && KidsOk(s.parent, s.pc)
    && PidsOk(s.state, s.pid, s.nextpid, s.reaped)
  }

  // ---------------------------------------------------------------- the steps of process p

  datatype Action =
    | Yield | Dispatch | Block | Unblock | Kill(k: nat)
    | Allocproc(n: nat) | ForkFail | ForkUnlock | ForkParent | ForkRun
    | ExitStart | Reparent | WakeInit | WakeParent | BecomeZombie | ExitRelease | ExitSwitch
    | WaitStart | ScanNext | Reap | WaitFault | WaitNone | WaitKilled | CallSleep | SleepLock | SleepRelease | SleepSet | SleepSwitch | Resume | WakeUnlock | WaitRelock

  /** Process p moves to c, its state to t, its channel to ch and its lock to l, and wait_lock to w. */
  function Moved(s: State, p: nat, c: Pc, t: PState, ch: Chan, l: Option<nat>, w: Option<nat>): (s': State)
    requires Sized(s) && p < |s.state|
    ensures Sized(s') && |s'.state| == |s.state|
  {
    s.(pc := s.pc[p := c], state := s.state[p := t], chan := s.chan[p := ch], lock := s.lock[p := l], waitLock := w)
  }

  function Goto(s: State, p: nat, c: Pc, w: Option<nat>): (s': State)
    requires Sized(s) && p < |s.state|
    ensures Sized(s') && |s'.state| == |s.state|
  {
    Moved(s, p, c, s.state[p], s.chan[p], s.lock[p], w)
  }

  function SetState(s: State, p: nat, t: PState): (s': State)
    requires Sized(s) && p < |s.state|
    ensures Sized(s') && |s'.state| == |s.state|
  {
    Moved(s, p, s.pc[p], t, s.chan[p], s.lock[p], s.waitLock)
  }

  /** wakeup(q), for process j */
  function Wake(s: State, j: nat, q: nat): (s': State)
    requires Sized(s) && j < |s.state|
    ensures Sized(s') && |s'.state| == |s.state|
  {
    if s.state[j] == SLEEPING && s.chan[j] == OfProc(q) then SetState(s, j, RUNNABLE) else s
  }

  /** Process p moves to c while it changes process n. */
  function Changed(s: State, p: nat, c: Pc, n: nat, cn: Pc, t: PState, pr: Option<nat>, ch: Chan, l: Option<nat>, w: Option<nat>): (s': State)
    requires Sized(s) && p < |s.state| && n < |s.state|
    ensures Sized(s') && |s'.state| == |s.state|
  {
    s.(pc := s.pc[p := c][n := cn], state := s.state[n := t], parent := s.parent[n := pr], chan := s.chan[n := ch], lock := s.lock[n := l], waitLock := w)
  }

  /** Running, and holding no lock of its own. */
  predicate Runs(s: State, p: nat)
    requires Sized(s) && p < |s.state|
  {
    s.state[p] == RUNNING && s.lock[p] == None
  }

  /** Where a process is, with what a move of it changes. */
  datatype Place = Place(pc: Pc, state: PState, chan: Chan, lock: Option<nat>, waitLock: Option<nat>)

  function Here(s: State, p: nat): (m: Place)
    requires Sized(s) && p < |s.state|
  {
    Place(s.pc[p], s.state[p], s.chan[p], s.lock[p], s.waitLock)
  }

  function MovedTo(s: State, p: nat, m: Place): (s': State)
    requires Sized(s) && p < |s.state|
    ensures Sized(s') && |s'.state| == |s.state|
  {
    Moved(s, p, m.pc, m.state, m.chan, m.lock, m.waitLock)
  }

  function When(enabled: bool, m: Place): (r: Option<Place>)
  {
    if enabled then Some(m) else None
  }

  predicate Moves(a: Action)
  {
    match a
    case Kill(_) => false
    case Allocproc(_) => false
    case _ => a !in {ForkFail, ForkUnlock, ForkParent, ForkRun, Reparent, WakeInit, WakeParent, Reap}
  }

  /** The steps in which process p moves and nothing else changes: where to, if it can. */
  function Move(s: State, p: nat, a: Action): (r: Option<Place>)
    requires Sized(s) && p < |s.state| && Moves(a)
  {
    var m, n := Here(s, p), |s.state|;
    match a
    // the scheduler, and sleeps elsewhere in the kernel
    case Yield => When(Runs(s, p) && (m.pc.User? || m.pc.ForkLink? || m.pc.ForkStart? || m.pc.WaitAgain?), m.(state := RUNNABLE))
    case Dispatch => When(m.state == RUNNABLE && !m.pc.Asleep? && m.lock == None, m.(state := RUNNING))
    case Block => When(m.pc.User? && Runs(s, p), m.(state := SLEEPING, chan := Elsewhere))
    case Unblock => When(m.pc.User? && m.state == SLEEPING && m.lock == None, m.(state := RUNNABLE))
    // exit
    case ExitStart => When(m.pc.User? && Runs(s, p) && p != s.initp && m.waitLock == None, m.(pc := ExitReparent(0), waitLock := Some(p)))
    case BecomeZombie => When(m.pc.ExitWakeParent? && m.pc.j >= n && m.lock == None, m.(pc := ExitZombie, state := ZOMBIE, lock := Some(p)))
    case ExitRelease => When(m.pc.ExitZombie?, m.(pc := ExitSched, waitLock := None))
    case ExitSwitch => When(m.pc.ExitSched?, m.(pc := Dead, lock := None))
    // wait2
    case WaitStart => When(m.pc.User? && Runs(s, p) && m.waitLock == None, m.(pc := WaitScan(0, false), waitLock := Some(p)))
    case ScanNext =>
      if m.pc.WaitScan? && m.pc.i < n && s.parent[m.pc.i] == Some(p) then
        When(s.lock[m.pc.i] == None && s.state[m.pc.i] != ZOMBIE, m.(pc := WaitScan(m.pc.i + 1, true)))
      else if m.pc.WaitScan? && m.pc.i < n then Some(m.(pc := WaitScan(m.pc.i + 1, m.pc.kids)))
      else None
    case WaitFault =>
      When(m.pc.WaitScan? && m.pc.i < n && s.parent[m.pc.i] == Some(p) && s.lock[m.pc.i] == None && s.state[m.pc.i] == ZOMBIE, m.(pc := User, waitLock := None))
    case WaitNone => When(m.pc.WaitScan? && m.pc.i >= n && !m.pc.kids, m.(pc := User, waitLock := None))
    case WaitKilled => When(m.pc.WaitScan? && m.pc.i >= n && s.killed[p] && m.lock == None, m.(pc := User, waitLock := None))
    case CallSleep => When(m.pc.WaitScan? && m.pc.i >= n && m.pc.kids && !s.killed[p] && m.lock == None, m.(pc := WaitCall))
    case SleepLock => When(m.pc.WaitCall? && m.lock == None, m.(pc := WaitHold, lock := Some(p)))
    case SleepRelease => When(m.pc.WaitHold?, m.(pc := WaitLocked, waitLock := None))
    case SleepSet => When(m.pc.WaitLocked?, m.(pc := WaitSleeping, state := SLEEPING, chan := OfProc(p)))
    case SleepSwitch => When(m.pc.WaitSleeping?, m.(pc := Asleep, lock := None))
    case Resume => When(m.pc.Asleep? && m.state == RUNNABLE && m.lock == None, m.(pc := WaitWoken, state := RUNNING, lock := Some(p)))
    case WakeUnlock => When(m.pc.WaitWoken?, m.(pc := WaitAgain, chan := NoChan, lock := None))
    case WaitRelock => When(m.pc.WaitAgain? && Runs(s, p) && m.waitLock == None, m.(pc := WaitScan(0, false), waitLock := Some(p)))
  }

  /** Process p takes step a from s to s'. */
  ghost predicate Act(s: State, s': State, p: nat, a: Action)
    requires Sized(s)
  {
    p < |s.state| && match a
    case Kill(k) =>
      k < |s.state| && s.pc[p].User? && Runs(s, p) && s.lock[k] == None
      && s' == (if s.state[k] == SLEEPING then SetState(s, k, RUNNABLE) else s).(killed := s.killed[k := true])
    // fork
    case Allocproc(n) =>
      n < |s.state| && n != p && s.pc[p].User? && Runs(s, p) && s.lock[n] == None && s.state[n] == UNUSED
      && s' == Changed(s.(pid := s.pid[n := s.nextpid], nextpid := s.nextpid + 1), p, ForkHold(n), n, s.pc[n], USED, s.parent[n], s.chan[n], Some(p), s.waitLock)
    case ForkFail =>
      s.pc[p].ForkHold? && s.pc[p].n < |s.state| && var n := s.pc[p].n;
      s' == Changed(s.(pid := s.pid[n := 0], killed := s.killed[n := false]), p, User, n, Idle, UNUSED, None, NoChan, None, s.waitLock)
    case ForkUnlock =>
      s.pc[p].ForkHold? && s.pc[p].n < |s.state| && var n := s.pc[p].n;
      s' == Changed(s, p, ForkLink(n), n, s.pc[n], s.state[n], s.parent[n], s.chan[n], None, s.waitLock)
    case ForkParent =>
      s.pc[p].ForkLink? && Runs(s, p) && s.waitLock == None && s.pc[p].n < |s.state| && var n := s.pc[p].n;
      s' == Changed(s, p, ForkStart(n), n, s.pc[n], s.state[n], Some(p), s.chan[n], s.lock[n], s.waitLock)
    case ForkRun =>
      s.pc[p].ForkStart? && Runs(s, p) && s.pc[p].n < |s.state| && s.lock[s.pc[p].n] == None && var n := s.pc[p].n;
      s' == Changed(s, p, User, n, User, RUNNABLE, s.parent[n], s.chan[n], None, s.waitLock)
    // exit: reparent and the two wakeups
    case Reparent =>
      s.pc[p].ExitReparent? && var i := s.pc[p].i;
      if i >= |s.state| then s' == Goto(s, p, ExitWakeParent(0), s.waitLock)
      else if s.parent[i] == Some(p) then s' == Goto(s.(parent := s.parent[i := Some(s.initp)]), p, ExitWakeInit(i, 0), s.waitLock)
      else s' == Goto(s, p, ExitReparent(i + 1), s.waitLock)
    case WakeInit =>
      s.pc[p].ExitWakeInit? && var i, j := s.pc[p].i, s.pc[p].j;
      if j >= |s.state| then s' == Goto(s, p, ExitReparent(i + 1), s.waitLock)
      else if j == p then s' == Goto(s, p, ExitWakeInit(i, j + 1), s.waitLock)
      else s.lock[j] == None && s' == Goto(Wake(s, j, s.initp), p, ExitWakeInit(i, j + 1), s.waitLock)
    case WakeParent =>
      s.pc[p].ExitWakeParent? && s.pc[p].j < |s.state| && s.parent[p].Some? && var j := s.pc[p].j;
      if j == p then s' == Goto(s, p, ExitWakeParent(j + 1), s.waitLock)
      else s.lock[j] == None && s' == Goto(Wake(s, j, s.parent[p].value), p, ExitWakeParent(j + 1), s.waitLock)
    // wait2 finds a zombie
    case Reap =>
      s.pc[p].WaitScan? && s.pc[p].i < |s.state| && var n := s.pc[p].i;
      s.parent[n] == Some(p) && s.lock[n] == None && s.state[n] == ZOMBIE
      && s' == Changed(s.(pid := s.pid[n := 0], killed := s.killed[n := false], reaped := s.reaped + {s.pid[n]}), p, User, n, Idle, UNUSED, None, NoChan, None, None)
    case _ => Move(s, p, a).Some? && s' == MovedTo(s, p, Move(s, p, a).value)
  }

  // ---------------------------------------------------------------- steps that change one process

  predicate LocksMove(c0: Pc, c: Pc, p: nat, l0: Option<nat>, l: Option<nat>, w0: Option<nat>, w: Option<nat>)
  {
    && (if HoldsWait(c) then w == Some(p) && (w0 == None || HoldsWait(c0)) else w == if HoldsWait(c0) then None else w0)
    && (if HoldsLock(c, p, p) then l == Some(p) && (l0 == None || HoldsLock(c0, p, p)) else l == if HoldsLock(c0, p, p) then None else l0)
    && (Forking(c) || Forking(c0) ==> c == c0)
  }

  lemma {:induction false} MoveLocks(pc: seq<Pc>, lock: seq<Option<nat>>, w0: Option<nat>, p: nat, c: Pc, l: Option<nat>, w: Option<nat>)
    requires |lock| == |pc| && p < |pc| && LocksOk(pc, lock, w0) && LocksMove(pc[p], c, p, lock[p], l, w0, w)
    ensures LocksOk(pc[p := c], lock[p := l], w)
  {
  }

  lemma {:induction false} MoveStates(state: seq<PState>, pc: seq<Pc>, chan: seq<Chan>, initp: nat, p: nat, c: Pc, t: PState, ch: Chan)
    requires |state| == |pc| == |chan| && initp < |pc| && p < |pc| && StatesOk(state, pc, chan, initp)
    requires StateAt(c, t) && (Exiting(c) ==> p != initp) && (c.WaitSleeping? || c.Asleep? ==> ch == OfProc(p)) && (p == initp ==> Alive(t))
    ensures StatesOk(state[p := t], pc[p := c], chan[p := ch], initp)
  {
    hide StateAt;
  }

  lemma {:induction false} MoveParents(state: seq<PState>, parent: seq<Option<nat>>, initp: nat, p: nat, t: PState)
    requires |state| == |parent| && p < |state| && ParentsOk(state, parent, initp)
    requires (t == UNUSED <==> state[p] == UNUSED) && (t == USED <==> state[p] == USED)
    requires Alive(state[p]) && !Alive(t) ==> forall k :: 0 <= k < |parent| ==> parent[k] != Some(p)
    ensures ParentsOk(state[p := t], parent, initp)
  {
  }

  lemma {:induction false} MoveForks(state: seq<PState>, parent: seq<Option<nat>>, pc: seq<Pc>, p: nat, c: Pc, t: PState)
    requires |state| == |parent| == |pc| && p < |pc| && ForksOk(state, parent, pc)
    requires (t == USED <==> state[p] == USED) && (Forking(c) || Forking(pc[p]) ==> c == pc[p])
    ensures ForksOk(state[p := t], parent, pc[p := c])
  {
  }

  lemma {:induction false} MoveReparent(parent: seq<Option<nat>>, pc: seq<Pc>, p: nat, c: Pc)
    requires |parent| == |pc| && p < |pc| && ReparentOk(parent, pc)
    requires forall k :: 0 <= k < |pc| && parent[k] == Some(p) ==> MayHaveChild(c, k)
    ensures ReparentOk(parent, pc[p := c])
  {
    hide MayHaveChild;
  }

  lemma {:induction false} MoveScan(state: seq<PState>, parent: seq<Option<nat>>, pc: seq<Pc>, w0: Option<nat>, p: nat, c: Pc, t: PState)
    requires |state| == |parent| == |pc| && p < |pc| && ScanOk(state, parent, pc)
    requires forall q :: 0 <= q < |pc| && pc[q].WaitScan? ==> w0 == Some(q)
    requires t == ZOMBIE && state[p] != ZOMBIE ==> w0 == Some(p) && !c.WaitScan?
    requires c.WaitScan? ==> forall k :: 0 <= k < |pc| && k < c.i && parent[k] == Some(p) ==> state[k] != ZOMBIE
    ensures ScanOk(state[p := t], parent, pc[p := c])
  {
  }

  lemma {:induction false} MoveKids(parent: seq<Option<nat>>, pc: seq<Pc>, p: nat, c: Pc)
    requires p < |pc| && KidsOk(parent, pc) && KidsAt(parent, p, c)
    ensures KidsOk(parent, pc[p := c])
  {
    hide KidsAt;
  }

  lemma {:induction false} MovePids(state: seq<PState>, pid: seq<nat>, nextpid: nat, reaped: set<nat>, p: nat, t: PState)
    requires |state| == |pid| && p < |pid| && PidsOk(state, pid, nextpid, reaped) && (t == UNUSED <==> state[p] == UNUSED)
    ensures PidsOk(state[p := t], pid, nextpid, reaped)
  {
  }

  /** What the invariant says of a process and its place alone. */
  predicate AtOk(p: nat, initp: nat, m: Place)
  {
    && StateAt(m.pc, m.state)
    && (HoldsWait(m.pc) <==> m.waitLock == Some(p)) && (HoldsLock(m.pc, p, p) <==> m.lock == Some(p))
    && (Exiting(m.pc) ==> p != initp) && (m.pc.WaitSleeping? || m.pc.Asleep? ==> m.chan == OfProc(p)) && (p == initp ==> Alive(m.state))
  }

  /** What a move to m' has to respect of the process itself. */
  predicate PlaceOk(p: nat, initp: nat, m: Place, m': Place)
  {
    && LocksMove(m.pc, m'.pc, p, m.lock, m'.lock, m.waitLock, m'.waitLock)
    && StateAt(m'.pc, m'.state) && (m'.state == UNUSED <==> m.state == UNUSED) && (m'.state == USED <==> m.state == USED)
    && (Exiting(m'.pc) ==> p != initp) && (m'.pc.WaitSleeping? || m'.pc.Asleep? ==> m'.chan == OfProc(p)) && (p == initp ==> Alive(m'.state))
    && (m'.state == ZOMBIE && m.state != ZOMBIE ==> m.waitLock == Some(p) && !m'.pc.WaitScan?)
  }

  /** What it has to respect of the children: one that stops being alive has none, and a scan has passed no zombie. */
  ghost predicate ChildrenOk(s: State, p: nat, m': Place)
    requires Sized(s) && p < |s.state|
  {
    && (Alive(s.state[p]) && !Alive(m'.state) ==> forall k :: 0 <= k < |s.parent| ==> s.parent[k] != Some(p))
    && (forall k :: 0 <= k < |s.pc| && s.parent[k] == Some(p) ==> MayHaveChild(m'.pc, k))
    && (m'.pc.WaitScan? ==> forall k :: 0 <= k < |s.pc| && k < m'.pc.i && s.parent[k] == Some(p) ==> s.state[k] != ZOMBIE)
  }

  lemma {:induction false} Holders(s: State)
    requires Inv(s)
    ensures forall q :: 0 <= q < |s.pc| && s.pc[q].WaitScan? ==> s.waitLock == Some(q)
  {
    hide StatesOk, ParentsOk, ForksOk, ReparentOk, ScanOk, KidsOk, PidsOk;
  }

  lemma {:induction false} MoveInv(s: State, p: nat, m: Place)
    requires Inv(s) && p < |s.state| && PlaceOk(p, s.initp, Here(s, p), m) && ChildrenOk(s, p, m) && KidsAt(s.parent, p, m.pc)
    ensures Inv(MovedTo(s, p, m))
  {
    hide LocksOk, StatesOk, ParentsOk, ForksOk, ReparentOk, ScanOk, KidsOk, PidsOk, StateAt, HoldsLock, HoldsWait, MayHaveChild, KidsAt;
    Holders(s);
    MoveLocks(s.pc, s.lock, s.waitLock, p, m.pc, m.lock, m.waitLock);
    MoveStates(s.state, s.pc, s.chan, s.initp, p, m.pc, m.state, m.chan);
    MoveParents(s.state, s.parent, s.initp, p, m.state);
    MoveForks(s.state, s.parent, s.pc, p, m.pc, m.state);
    MoveReparent(s.parent, s.pc, p, m.pc);
    MoveScan(s.state, s.parent, s.pc, s.waitLock, p, m.pc, m.state);
    MoveKids(s.parent, s.pc, p, m.pc);
    MovePids(s.state, s.pid, s.nextpid, s.reaped, p, m.state);
  }

  // ---------------------------------------------------------------- every step keeps the invariant

  /** What the invariant says of process p. */
  lemma {:induction false} About(s: State, p: nat)
    requires Inv(s) && p < |s.state|
    ensures AtOk(p, s.initp, Here(s, p)) && Alive(s.state[s.initp])
    ensures forall k :: 0 <= k < |s.pc| && s.parent[k] == Some(p) ==> MayHaveChild(s.pc[p], k) && Alive(s.state[p])
    ensures s.pc[p].WaitScan? ==> forall k :: 0 <= k < |s.pc| && k < s.pc[p].i && s.parent[k] == Some(p) ==> s.state[k] != ZOMBIE
    ensures s.parent[p].Some? ==> s.parent[p].value < |s.pc| && Alive(s.state[s.parent[p].value])
    ensures p != s.initp && (Alive(s.state[p]) || s.state[p] == ZOMBIE) ==> s.parent[p].Some?
    ensures s.state[p] == UNUSED ==> s.parent[p] == None
    ensures KidsAt(s.parent, p, s.pc[p])
  {
    hide ForksOk, PidsOk, StateAt, HoldsLock, HoldsWait, MayHaveChild, KidsAt;
  }

  lemma {:induction false} MovePlace(s: State, p: nat, a: Action)
    requires Sized(s) && p < |s.state| && Moves(a) && Move(s, p, a).Some? && AtOk(p, s.initp, Here(s, p))
    ensures PlaceOk(p, s.initp, Here(s, p), Move(s, p, a).value)
  {
    hide PlaceOk, AtOk, Move;
    if InWait2(a) {
      WaitPlace(s, p, a);
    } else {
      OtherPlace(s, p, a);
    }
  }

  predicate InWait2(a: Action)
  {
    a in {WaitStart, ScanNext, WaitFault, WaitNone, WaitKilled, CallSleep, SleepLock, SleepRelease, SleepSet, SleepSwitch, Resume, WakeUnlock, WaitRelock}
  }

  lemma {:induction false} WaitPlace(s: State, p: nat, a: Action)
    requires Sized(s) && p < |s.state| && Moves(a) && InWait2(a) && Move(s, p, a).Some? && AtOk(p, s.initp, Here(s, p))
    ensures PlaceOk(p, s.initp, Here(s, p), Move(s, p, a).value)
  {
  }

  lemma {:induction false} OtherPlace(s: State, p: nat, a: Action)
    requires Sized(s) && p < |s.state| && Moves(a) && !InWait2(a) && Move(s, p, a).Some? && AtOk(p, s.initp, Here(s, p))
    ensures PlaceOk(p, s.initp, Here(s, p), Move(s, p, a).value)
  {
  }

  lemma {:induction false} MoveChildren(s: State, p: nat, a: Action)
    requires Inv(s) && p < |s.state| && Moves(a) && Move(s, p, a).Some?
    ensures ChildrenOk(s, p, Move(s, p, a).value)
  {
    hide LocksOk, StatesOk, ParentsOk, ForksOk, ReparentOk, ScanOk, KidsOk, PidsOk, HoldsLock, HoldsWait, KidsAt;
    About(s, p);
  }

  lemma {:induction false} MoveKidsAt(s: State, p: nat, a: Action)
    requires Sized(s) && p < |s.state| && Moves(a) && Move(s, p, a).Some? && KidsAt(s.parent, p, s.pc[p])
    ensures KidsAt(s.parent, p, Move(s, p, a).value.pc)
  {
    if s.pc[p].WaitScan? {
      NextChild(s.parent, p, s.pc[p].i);
    }
    NextChild(s.parent, p, 0);
    hide HasChild;
  }

  lemma {:induction false} NextChild(parent: seq<Option<nat>>, p: nat, i: nat)
    ensures HasChild(parent, p, i + 1) <==> HasChild(parent, p, i) || (i < |parent| && parent[i] == Some(p))
    ensures i >= |parent| ==> (HasChild(parent, p, i) <==> HasChild(parent, p, |parent|))
    ensures !HasChild(parent, p, 0)
  {
  }

  /** Waking a sleeper whose lock is free. */
  lemma {:induction false} WokenInv(s: State, j: nat)
    requires Inv(s) && j < |s.state| && s.state[j] == SLEEPING && s.lock[j] == None
    ensures Inv(SetState(s, j, RUNNABLE))
  {
    hide LocksOk, StatesOk, ParentsOk, ForksOk, ReparentOk, ScanOk, KidsOk, PidsOk;
    About(s, j);
    MoveInv(s, j, Here(s, j).(state := RUNNABLE));
  }

  /** wakeup for process j keeps the invariant, and every place, parent and lock. */
  lemma {:induction false} WakeOne(s: State, j: nat, q: nat)
    requires Inv(s) && j < |s.state| && s.lock[j] == None
    ensures Inv(Wake(s, j, q))
    ensures Wake(s, j, q).pc == s.pc && Wake(s, j, q).parent == s.parent && Wake(s, j, q).lock == s.lock
  {
    hide LocksOk, StatesOk, ParentsOk, ForksOk, ReparentOk, ScanOk, KidsOk, PidsOk;
    About(s, j);
    if s.state[j] == SLEEPING {
      WokenInv(s, j);
      assert s.pc[j := s.pc[j]] == s.pc && s.lock[j := s.lock[j]] == s.lock;
    }
  }

  lemma {:induction false} KillInv(s: State, s': State, p: nat, k: nat)
    requires Inv(s) && Act(s, s', p, Kill(k))
    ensures Inv(s')
  {
    hide LocksOk, StatesOk, ParentsOk, ForksOk, ReparentOk, ScanOk, KidsOk, PidsOk;
    if s.state[k] == SLEEPING {
      WokenInv(s, k);
    }
  }

  /** Either wakeup loop goes on. */
  lemma {:induction false} Advance(s: State, p: nat, c: Pc)
    requires Inv(s) && p < |s.state|
    requires (s.pc[p].ExitWakeInit? && (c == ExitWakeInit(s.pc[p].i, s.pc[p].j + 1) || c == ExitReparent(s.pc[p].i + 1)))
             || (s.pc[p].ExitWakeParent? && c == ExitWakeParent(s.pc[p].j + 1))
    ensures Inv(Goto(s, p, c, s.waitLock))
  {
    hide LocksOk, StatesOk, ParentsOk, ForksOk, ReparentOk, ScanOk, KidsOk, PidsOk;
    About(s, p);
    MoveInv(s, p, Here(s, p).(pc := c));
  }

  lemma {:induction false} WakeInitInv(s: State, s': State, p: nat)
    requires Inv(s) && Act(s, s', p, WakeInit)
    ensures Inv(s')
  {
    hide LocksOk, StatesOk, ParentsOk, ForksOk, ReparentOk, ScanOk, KidsOk, PidsOk;
    var i, j := s.pc[p].i, s.pc[p].j;
    if j >= |s.state| {
      Advance(s, p, ExitReparent(i + 1));
    } else if j == p {
      Advance(s, p, ExitWakeInit(i, j + 1));
    } else {
      WakeOne(s, j, s.initp);
      WakeKeeps(s, j, s.initp);
      hide Wake;
      Advance(Wake(s, j, s.initp), p, ExitWakeInit(i, j + 1));
    }
  }

  lemma {:induction false} WakeKeeps(s: State, j: nat, q: nat)
    requires Sized(s) && j < |s.state|
    ensures Wake(s, j, q).waitLock == s.waitLock && Wake(s, j, q).initp == s.initp && Wake(s, j, q).pc == s.pc && Wake(s, j, q).parent == s.parent
    ensures forall k :: 0 <= k < |s.state| && k != j ==> Wake(s, j, q).state[k] == s.state[k]
  {
    assert s.pc[j := s.pc[j]] == s.pc;
  }

  lemma {:induction false} WakeParentInv(s: State, s': State, p: nat)
    requires Inv(s) && Act(s, s', p, WakeParent)
    ensures Inv(s')
  {
    hide LocksOk, StatesOk, ParentsOk, ForksOk, ReparentOk, ScanOk, KidsOk, PidsOk;
    var j, q := s.pc[p].j, s.parent[p].value;
    if j == p {
      Advance(s, p, ExitWakeParent(j + 1));
    } else {
      WakeOne(s, j, q);
      WakeKeeps(s, j, q);
      hide Wake;
      Advance(Wake(s, j, q), p, ExitWakeParent(j + 1));
    }
  }

  // ---------------------------------------------------------------- steps that change two processes

  /** A place that holds no lock and is in no part of exit or wait2. */
  predicate Quiet(c: Pc)
  {
    c.Idle? || c.Dead? || c.User?
  }

  predicate Plain(c: Pc)
  {
    Quiet(c) || Forking(c)
  }

  lemma {:induction false} ChangeLocks(pc: seq<Pc>, lock: seq<Option<nat>>, w0: Option<nat>, p: nat, c: Pc, n: nat, cn: Pc, l: Option<nat>, w: Option<nat>)
    requires |lock| == |pc| && p < |pc| && n < |pc| && n != p && LocksOk(pc, lock, w0) && Quiet(pc[n]) && Quiet(cn) && Plain(c)
    requires (Plain(pc[p]) || pc[p].WaitScan?) && w == (if HoldsWait(pc[p]) then None else w0)
    requires (c.ForkHold? ==> c.n == n) && (pc[p].ForkHold? ==> pc[p].n == n) && (lock[n] == None || pc[p] == ForkHold(n))
    requires l == if c.ForkHold? then Some(p) else None
    ensures LocksOk(pc[p := c][n := cn], lock[n := l], w)
  {
  }

  lemma {:induction false} ChangeStates(state: seq<PState>, pc: seq<Pc>, chan: seq<Chan>, initp: nat, p: nat, c: Pc, n: nat, cn: Pc, t: PState, ch: Chan)
    requires |state| == |pc| == |chan| && initp < |pc| && p < |pc| && n < |pc| && n != p && n != initp && StatesOk(state, pc, chan, initp)
    requires StateAt(c, state[p]) && StateAt(cn, t) && Plain(c) && Quiet(cn)
    ensures StatesOk(state[n := t], pc[p := c][n := cn], chan[n := ch], initp)
  {
    hide StateAt;
  }

  lemma {:induction false} ChangeParents(state: seq<PState>, parent: seq<Option<nat>>, initp: nat, p: nat, n: nat, t: PState, pr: Option<nat>)
    requires |state| == |parent| && p < |state| && n < |state| && n != p && n != initp && ParentsOk(state, parent, initp) && !Alive(state[n])
    requires pr == None || (pr == Some(p) && Alive(state[p]))
    requires (Alive(t) || t == ZOMBIE ==> pr.Some?) && (t == UNUSED ==> pr == None)
    ensures ParentsOk(state[n := t], parent[n := pr], initp)
  {
  }

  lemma {:induction false} ChangeForks(state: seq<PState>, parent: seq<Option<nat>>, pc: seq<Pc>, p: nat, c: Pc, n: nat, cn: Pc, t: PState, pr: Option<nat>)
    requires |state| == |parent| == |pc| && p < |pc| && n < |pc| && n != p && ForksOk(state, parent, pc) && !Forking(cn)
    requires Forking(c) ==> c.n == n && t == USED && pr == if c.ForkStart? then Some(p) else None
    requires forall q :: 0 <= q < |pc| && q != p && q != n && Forking(pc[q]) ==> pc[q].n != n
    ensures ForksOk(state[n := t], parent[n := pr], pc[p := c][n := cn])
  {
  }

  lemma {:induction false} ChangeReparent(parent: seq<Option<nat>>, pc: seq<Pc>, p: nat, c: Pc, n: nat, cn: Pc, pr: Option<nat>)
    requires |parent| == |pc| && p < |pc| && n < |pc| && n != p && ReparentOk(parent, pc) && Plain(c) && Quiet(cn) && (pr == None || pr == Some(p))
    ensures ReparentOk(parent[n := pr], pc[p := c][n := cn])
  {
  }

  lemma {:induction false} ChangeScan(state: seq<PState>, parent: seq<Option<nat>>, pc: seq<Pc>, p: nat, c: Pc, n: nat, cn: Pc, t: PState, pr: Option<nat>)
    requires |state| == |parent| == |pc| && p < |pc| && n < |pc| && n != p && ScanOk(state, parent, pc) && Plain(c) && Quiet(cn) && t != ZOMBIE
    ensures ScanOk(state[n := t], parent[n := pr], pc[p := c][n := cn])
  {
  }

  /** p's own child comes or goes; p itself is in no part of wait2 afterwards. */
  lemma {:induction false} ChangeKids(parent: seq<Option<nat>>, pc: seq<Pc>, p: nat, c: Pc, n: nat, cn: Pc, pr: Option<nat>)
    requires |parent| == |pc| && p < |pc| && n < |pc| && n != p && KidsOk(parent, pc) && Plain(c) && Quiet(cn)
    requires (pr == None || pr == Some(p)) && (parent[n] == None || parent[n] == Some(p))
    ensures KidsOk(parent[n := pr], pc[p := c][n := cn])
  {
    forall q, i: nat | q != p
      ensures HasChild(parent[n := pr], q, i) == HasChild(parent, q, i)
    {
      SameChildren(parent, n, pr, q, i);
    }
    hide HasChild;
  }

  lemma {:induction false} SameChildren(parent: seq<Option<nat>>, n: nat, pr: Option<nat>, q: nat, i: nat)
    requires n < |parent| && parent[n] != Some(q) && pr != Some(q)
    ensures HasChild(parent[n := pr], q, i) == HasChild(parent, q, i)
  {
    if HasChild(parent, q, i) {
      var c :| 0 <= c < i && c < |parent| && parent[c] == Some(q);
      assert parent[n := pr][c] == Some(q);
    }
  }

  /** Everything a change of process n by process p has to respect. */
  ghost predicate ChangeOk(s: State, p: nat, c: Pc, n: nat, cn: Pc, t: PState, pr: Option<nat>, l: Option<nat>, w: Option<nat>)
    requires Sized(s) && p < |s.state| && n < |s.state|
  {
    && n != p && n != s.initp && (s.parent[n] == None || s.parent[n] == Some(p)) && Quiet(s.pc[n]) && Quiet(cn) && Plain(c) && !Alive(s.state[n]) && t != ZOMBIE
    && (Plain(s.pc[p]) || s.pc[p].WaitScan?) && w == (if HoldsWait(s.pc[p]) then None else s.waitLock)
    && (c.ForkHold? ==> c.n == n) && (s.pc[p].ForkHold? ==> s.pc[p].n == n) && (s.lock[n] == None || s.pc[p] == ForkHold(n))
    && l == (if c.ForkHold? then Some(p) else None)
    && StateAt(c, s.state[p]) && StateAt(cn, t)
    && (pr == None || (pr == Some(p) && Alive(s.state[p]))) && (Alive(t) ==> pr.Some?) && (t == UNUSED ==> pr == None)
    && (Forking(c) ==> c.n == n && t == USED && pr == if c.ForkStart? then Some(p) else None)
    && forall q :: 0 <= q < |s.pc| && q != p && q != n && Forking(s.pc[q]) ==> s.pc[q].n != n
  }

  lemma {:induction false} ChangeInv(s: State, pid: seq<nat>, killed: seq<bool>, nextpid: nat, reaped: set<nat>,
                                     p: nat, c: Pc, n: nat, cn: Pc, t: PState, pr: Option<nat>, ch: Chan, l: Option<nat>, w: Option<nat>)
    requires Inv(s) && p < |s.state| && n < |s.state| && ChangeOk(s, p, c, n, cn, t, pr, l, w)
    requires |pid| == |s.pid| && |killed| == |s.killed| && PidsOk(s.state[n := t], pid, nextpid, reaped)
    requires s.waitLock == Some(p) <==> HoldsWait(s.pc[p])
    ensures Inv(Changed(s.(pid := pid, killed := killed, nextpid := nextpid, reaped := reaped), p, c, n, cn, t, pr, ch, l, w))
  {
    hide LocksOk, StatesOk, ParentsOk, ForksOk, ReparentOk, ScanOk, KidsOk, PidsOk, ChangeOk, HoldsWait;
    ChangePlaces(s, p, c, n, cn, t, pr, ch, l, w);
    ChangeFamily(s, p, c, n, cn, t, pr, l, w);
  }

  lemma {:induction false} ChangePlaces(s: State, p: nat, c: Pc, n: nat, cn: Pc, t: PState, pr: Option<nat>, ch: Chan, l: Option<nat>, w: Option<nat>)
    requires Inv(s) && p < |s.state| && n < |s.state| && ChangeOk(s, p, c, n, cn, t, pr, l, w)
    ensures LocksOk(s.pc[p := c][n := cn], s.lock[n := l], w)
    ensures StatesOk(s.state[n := t], s.pc[p := c][n := cn], s.chan[n := ch], s.initp)
  {
    hide LocksOk, StatesOk, ParentsOk, ForksOk, ReparentOk, ScanOk, KidsOk, PidsOk, StateAt, HoldsLock;
    ChangeLocks(s.pc, s.lock, s.waitLock, p, c, n, cn, l, w);
    ChangeStates(s.state, s.pc, s.chan, s.initp, p, c, n, cn, t, ch);
  }

  lemma {:induction false} ChangeFamily(s: State, p: nat, c: Pc, n: nat, cn: Pc, t: PState, pr: Option<nat>, l: Option<nat>, w: Option<nat>)
    requires Inv(s) && p < |s.state| && n < |s.state| && ChangeOk(s, p, c, n, cn, t, pr, l, w)
    ensures ParentsOk(s.state[n := t], s.parent[n := pr], s.initp)
    ensures ForksOk(s.state[n := t], s.parent[n := pr], s.pc[p := c][n := cn])
    ensures ReparentOk(s.parent[n := pr], s.pc[p := c][n := cn])
    ensures ScanOk(s.state[n := t], s.parent[n := pr], s.pc[p := c][n := cn])
    ensures KidsOk(s.parent[n := pr], s.pc[p := c][n := cn])
  {
    hide LocksOk, StatesOk, ParentsOk, ForksOk, ReparentOk, ScanOk, KidsOk, PidsOk, StateAt, HoldsLock, HoldsWait;
    ChangeParents(s.state, s.parent, s.initp, p, n, t, pr);
    ChangeForks(s.state, s.parent, s.pc, p, c, n, cn, t, pr);
    ChangeReparent(s.parent, s.pc, p, c, n, cn, pr);
    ChangeScan(s.state, s.parent, s.pc, p, c, n, cn, t, pr);
    ChangeKids(s.parent, s.pc, p, c, n, cn, pr);
  }

  lemma {:induction false} NewPid(state: seq<PState>, pid: seq<nat>, nextpid: nat, reaped: set<nat>, n: nat)
    requires |state| == |pid| && n < |pid| && PidsOk(state, pid, nextpid, reaped) && state[n] == UNUSED
    ensures PidsOk(state[n := USED], pid[n := nextpid], nextpid + 1, reaped)
  {
  }

  /** The pid of a process that goes is collected, or given up. */
  lemma {:induction false} OldPid(state: seq<PState>, pid: seq<nat>, nextpid: nat, reaped: set<nat>, n: nat)
    requires |state| == |pid| && n < |pid| && PidsOk(state, pid, nextpid, reaped) && state[n] != UNUSED
    ensures PidsOk(state[n := UNUSED], pid[n := 0], nextpid, reaped) && PidsOk(state[n := UNUSED], pid[n := 0], nextpid, reaped + {pid[n]})
    ensures pid[n] !in reaped
  {
    forall p | 0 <= p < |pid| && p != n && state[p] != UNUSED
      ensures pid[p] != pid[n]
    {
    }
  }

  lemma {:induction false} AllocprocInv(s: State, s': State, p: nat, n: nat)
    requires Inv(s) && Act(s, s', p, Allocproc(n))
    ensures Inv(s')
  {
    hide LocksOk, StatesOk, ParentsOk, ForksOk, ReparentOk, ScanOk, KidsOk, PidsOk;
    About(s, p);
    About(s, n);
    NewPid(s.state, s.pid, s.nextpid, s.reaped, n);
    NotForked(s, n);
    assert ChangeOk(s, p, ForkHold(n), n, s.pc[n], USED, s.parent[n], Some(p), s.waitLock);
    hide ChangeOk;
    ChangeInv(s, s.pid[n := s.nextpid], s.killed, s.nextpid + 1, s.reaped, p, ForkHold(n), n, s.pc[n], USED, s.parent[n], s.chan[n], Some(p), s.waitLock);
  }

  lemma {:induction false} ForkFailInv(s: State, s': State, p: nat)
    requires Inv(s) && Act(s, s', p, ForkFail)
    ensures Inv(s')
  {
    hide LocksOk, StatesOk, ParentsOk, ForksOk, ReparentOk, ScanOk, KidsOk, PidsOk;
    var n := s.pc[p].n;
    About(s, p);
    ForkedProc(s, p);
    OldPid(s.state, s.pid, s.nextpid, s.reaped, n);
    assert ChangeOk(s, p, User, n, Idle, UNUSED, None, None, s.waitLock);
    hide ChangeOk;
    ChangeInv(s, s.pid[n := 0], s.killed[n := false], s.nextpid, s.reaped, p, User, n, Idle, UNUSED, None, NoChan, None, s.waitLock);
  }

  lemma {:induction false} ForkMoveInv(s: State, s': State, p: nat, a: Action)
    requires Inv(s) && a in {ForkUnlock, ForkParent, ForkRun} && Act(s, s', p, a)
    ensures Inv(s')
  {
    hide LocksOk, StatesOk, ParentsOk, ForksOk, ReparentOk, ScanOk, KidsOk, PidsOk;
    var n := s.pc[p].n;
    About(s, p);
    ForkedProc(s, p);
    if !s.pc[p].ForkHold? {
      LockOfForked(s, p);
    }
    var c, cn, t, pr := s'.pc[p], s'.pc[n], s'.state[n], s'.parent[n];
    assert ChangeOk(s, p, c, n, cn, t, pr, None, s.waitLock);
    MovePids(s.state, s.pid, s.nextpid, s.reaped, n, t);
    hide ChangeOk;
    ChangeInv(s, s.pid, s.killed, s.nextpid, s.reaped, p, c, n, cn, t, pr, s.chan[n], None, s.waitLock);
    assert a == ForkUnlock || a == ForkParent || a == ForkRun;
  }

  lemma {:induction false} ReapInv(s: State, s': State, p: nat)
    requires Inv(s) && Act(s, s', p, Reap)
    ensures Inv(s')
  {
    hide LocksOk, StatesOk, ParentsOk, ForksOk, ReparentOk, ScanOk, KidsOk, PidsOk;
    var n := s.pc[p].i;
    About(s, p);
    About(s, n);
    NotForked(s, n);
    OldPid(s.state, s.pid, s.nextpid, s.reaped, n);
    assert ChangeOk(s, p, User, n, Idle, UNUSED, None, None, None);
    hide ChangeOk;
    ChangeInv(s, s.pid[n := 0], s.killed[n := false], s.nextpid, s.reaped + {s.pid[n]}, p, User, n, Idle, UNUSED, None, NoChan, None, None);
  }

  lemma {:induction false} NotForked(s: State, n: nat)
    requires Inv(s) && n < |s.state| && s.state[n] != USED
    ensures forall q :: 0 <= q < |s.pc| && Forking(s.pc[q]) ==> s.pc[q].n != n
  {
    hide LocksOk, StatesOk, ParentsOk, ReparentOk, ScanOk, KidsOk, PidsOk;
  }

  /** Only its forker can hold the lock of a process that is being made. */
  lemma {:induction false} LockOfForked(s: State, p: nat)
    requires Inv(s) && p < |s.state| && (s.pc[p].ForkLink? || s.pc[p].ForkStart?)
    ensures s.pc[p].n < |s.state| && s.lock[s.pc[p].n] == None
  {
    ForkedProc(s, p);
    hide StatesOk, ParentsOk, ForksOk, ReparentOk, ScanOk, KidsOk, PidsOk;
    var n := s.pc[p].n;
    assert forall q :: 0 <= q < |s.pc| ==> !HoldsLock(s.pc[q], q, n);
  }

  /** A process number that is still in use was never collected. */
  lemma {:induction false} CollectedOnce(s: State, n: nat)
    requires Inv(s) && n < |s.state| && s.state[n] == ZOMBIE
    ensures |s.pid| == |s.state| && s.pid[n] !in s.reaped
  {
    hide LocksOk, StatesOk, ParentsOk, ForksOk, ReparentOk, ScanOk, KidsOk;
  }

  // ---------------------------------------------------------------- reparent

  /** A child goes to init. */
  lemma {:induction false} GivenParents(state: seq<PState>, parent: seq<Option<nat>>, initp: nat, i: nat)
    requires |state| == |parent| && initp < |state| && i < |state| && ParentsOk(state, parent, initp) && Alive(state[initp]) && parent[i].Some?
    ensures ParentsOk(state, parent[i := Some(initp)], initp)
  {
  }

  lemma {:induction false} GivenForks(state: seq<PState>, parent: seq<Option<nat>>, pc: seq<Pc>, p: nat, i: nat, c: Pc, q: nat)
    requires |state| == |parent| == |pc| && p < |pc| && i < |pc| && ForksOk(state, parent, pc) && parent[i] == Some(p) && !Forking(pc[p]) && !Forking(c)
    ensures ForksOk(state, parent[i := Some(q)], pc[p := c])
  {
  }

  lemma {:induction false} GivenReparent(parent: seq<Option<nat>>, pc: seq<Pc>, p: nat, i: nat, initp: nat)
    requires |parent| == |pc| && p < |pc| && i < |pc| && initp < |pc| && p != initp && ReparentOk(parent, pc) && pc[p] == ExitReparent(i) && !Exiting(pc[initp])
    ensures ReparentOk(parent[i := Some(initp)], pc[p := ExitWakeInit(i, 0)])
  {
  }

  /** While p holds wait_lock, nobody scans. */
  lemma {:induction false} GivenScan(state: seq<PState>, parent: seq<Option<nat>>, pc: seq<Pc>, lock: seq<Option<nat>>, w: Option<nat>, p: nat, i: nat, initp: nat)
    requires |state| == |parent| == |pc| == |lock| && p < |pc| && i < |pc| && initp < |pc| && LocksOk(pc, lock, w) && w == Some(p) && pc[p] == ExitReparent(i)
    ensures ScanOk(state, parent[i := Some(initp)], pc[p := ExitWakeInit(i, 0)])
  {
    forall q | 0 <= q < |pc| && q != p
      ensures !HoldsWait(pc[q])
    {
    }
    hide LocksOk, HoldsLock;
  }

  lemma {:induction false} GivenKids(parent: seq<Option<nat>>, pc: seq<Pc>, lock: seq<Option<nat>>, w: Option<nat>, p: nat, i: nat, initp: nat)
    requires |parent| == |pc| == |lock| && p < |pc| && i < |pc| && initp < |pc| && LocksOk(pc, lock, w) && w == Some(p) && pc[p] == ExitReparent(i)
    requires KidsOk(parent, pc) && parent[i] == Some(p)
    ensures KidsOk(parent[i := Some(initp)], pc[p := ExitWakeInit(i, 0)])
  {
    forall q | 0 <= q < |pc| && q != p
      ensures !pc[q].WaitScan?
    {
      assert !HoldsWait(pc[q]);
    }
    forall q | q != p && HasChild(parent, q, |parent|)
      ensures HasChild(parent[i := Some(initp)], q, |parent|)
    {
      var c :| 0 <= c < |parent| && parent[c] == Some(q);
      assert parent[i := Some(initp)][c] == Some(q);
    }
    hide LocksOk, HasChild;
  }

  /** A child goes to init, and init is about to be woken. */
  lemma {:induction false} GivenToInit(s: State, p: nat, i: nat)
    requires Inv(s) && p < |s.state| && i < |s.state| && s.pc[p] == ExitReparent(i) && s.parent[i] == Some(p)
    ensures Inv(Goto(s.(parent := s.parent[i := Some(s.initp)]), p, ExitWakeInit(i, 0), s.waitLock))
  {
    hide LocksOk, StatesOk, ParentsOk, ForksOk, ReparentOk, ScanOk, KidsOk, PidsOk;
    var c := ExitWakeInit(i, 0);
    About(s, p);
    InitStays(s);
    MoveLocks(s.pc, s.lock, s.waitLock, p, c, s.lock[p], s.waitLock);
    MoveStates(s.state, s.pc, s.chan, s.initp, p, c, s.state[p], s.chan[p]);
    assert s.state[p := s.state[p]] == s.state;
    GivenParents(s.state, s.parent, s.initp, i);
    GivenForks(s.state, s.parent, s.pc, p, i, c, s.initp);
    GivenReparent(s.parent, s.pc, p, i, s.initp);
    GivenScan(s.state, s.parent, s.pc, s.lock, s.waitLock, p, i, s.initp);
    GivenKids(s.parent, s.pc, s.lock, s.waitLock, p, i, s.initp);
  }

  lemma {:induction false} InitStays(s: State)
    requires Inv(s)
    ensures Alive(s.state[s.initp]) && !Exiting(s.pc[s.initp])
  {
    hide LocksOk, ParentsOk, ForksOk, ReparentOk, ScanOk, KidsOk, PidsOk;
  }

  lemma {:induction false} ReparentInv(s: State, s': State, p: nat)
    requires Inv(s) && Act(s, s', p, Reparent)
    ensures Inv(s')
  {
    hide LocksOk, StatesOk, ParentsOk, ForksOk, ReparentOk, ScanOk, KidsOk, PidsOk;
    var i := s.pc[p].i;
    About(s, p);
    if i < |s.state| && s.parent[i] == Some(p) {
      GivenToInit(s, p, i);
    } else {
      var c := if i >= |s.state| then ExitWakeParent(0) else ExitReparent(i + 1);
      MoveInv(s, p, Here(s, p).(pc := c));
    }
  }

  /** The process a forker makes. */
  lemma {:induction false} ForkedProc(s: State, p: nat)
    requires Inv(s) && p < |s.state| && Forking(s.pc[p])
    ensures s.pc[p].n < |s.state| && s.state[s.pc[p].n] == USED && s.pc[p].n != p && s.pc[s.pc[p].n] == Idle
    ensures s.parent[s.pc[p].n] == if s.pc[p].ForkStart? then Some(p) else None
    ensures forall q :: 0 <= q < |s.pc| && Forking(s.pc[q]) && s.pc[q].n == s.pc[p].n ==> q == p
  {
    hide LocksOk, ParentsOk, ReparentOk, ScanOk, KidsOk, PidsOk;
  }

  // ---------------------------------------------------------------- every run

  lemma {:induction false} MovesInv(s: State, s': State, p: nat, a: Action)
    requires Inv(s) && Moves(a) && Act(s, s', p, a)
    ensures Inv(s')
  {
    hide LocksOk, StatesOk, ParentsOk, ForksOk, ReparentOk, ScanOk, KidsOk, PidsOk, Move, MovedTo, PlaceOk, ChildrenOk, KidsAt, AtOk;
    About(s, p);
    MovePlace(s, p, a);
    MoveChildren(s, p, a);
    MoveKidsAt(s, p, a);
    MoveInv(s, p, Move(s, p, a).value);
  }

  lemma {:induction false} StepInv(s: State, s': State, p: nat, a: Action)
    requires Inv(s) && Act(s, s', p, a)
    ensures Inv(s')
  {
    hide LocksOk, StatesOk, ParentsOk, ForksOk, ReparentOk, ScanOk, KidsOk, PidsOk, Act;
    match a
    case Kill(k) => KillInv(s, s', p, k);
    case Allocproc(n) => AllocprocInv(s, s', p, n);
    case ForkFail => ForkFailInv(s, s', p);
    case ForkUnlock => ForkMoveInv(s, s', p, a);
    case ForkParent => ForkMoveInv(s, s', p, a);
    case ForkRun => ForkMoveInv(s, s', p, a);
    case Reparent => ReparentInv(s, s', p);
    case WakeInit => WakeInitInv(s, s', p);
    case WakeParent => WakeParentInv(s, s', p);
    case Reap => ReapInv(s, s', p);
    case _ => MovesInv(s, s', p, a);
  }

  /** One step of some process. */
  ghost predicate Step(s: State, s': State)
    requires Sized(s)
  {
    exists p, a :: Act(s, s', p, a)
  }

  /** Only init exists, in user space. */
  ghost predicate Start(s: State)
  {
    && Sized(s) && s.waitLock == None && s.reaped == {} && s.state[s.initp] == RUNNABLE && s.pc[s.initp] == User && s.pid[s.initp] < s.nextpid
    && (forall p :: 0 <= p < |s.state| ==> s.lock[p] == None && s.parent[p] == None)
    && (forall p :: 0 <= p < |s.state| && p != s.initp ==> s.state[p] == UNUSED && s.pc[p] == Idle)
  }

  ghost predicate Run(run: seq<State>)
  {
    && |run| > 0 && Start(run[0])
    && (forall i :: 0 <= i < |run| ==> Sized(run[i]))
    && (forall i :: 0 <= i < |run| - 1 ==> Step(run[i], run[i + 1]))
  }

  /** There is such a state, for a process table of any size. */
  lemma {:induction false} CanStart(n: nat) returns (s: State)
    requires n > 0
    ensures Start(s) && |s.state| == n
  {
    s := State(0, seq(n, i => if i == 0 then RUNNABLE else UNUSED), seq(n, _ => None), seq(n, _ => NoChan), seq(n, _ => 1), seq(n, _ => false),
               seq(n, i => if i == 0 then User else Idle), seq(n, _ => None), None, 2, {});
  }

  lemma {:induction false} StartInv(s: State)
    requires Start(s)
    ensures Inv(s)
  {
    hide Start, LocksOk, StatesOk, PidsOk, ParentsOk, ForksOk, ReparentOk, ScanOk, KidsOk;
    StartPlaces(s);
    StartFamily(s);
  }

  lemma {:induction false} StartPlaces(s: State)
    requires Start(s)
    ensures Sized(s) && LocksOk(s.pc, s.lock, s.waitLock) && StatesOk(s.state, s.pc, s.chan, s.initp) && PidsOk(s.state, s.pid, s.nextpid, s.reaped)
  {
    assert forall p :: 0 <= p < |s.pc| ==> s.pc[p] == User || s.pc[p] == Idle;
  }

  lemma {:induction false} StartFamily(s: State)
    requires Start(s)
    ensures Sized(s) && ParentsOk(s.state, s.parent, s.initp) && ForksOk(s.state, s.parent, s.pc) && ReparentOk(s.parent, s.pc)
    ensures ScanOk(s.state, s.parent, s.pc) && KidsOk(s.parent, s.pc)
  {
    assert forall p :: 0 <= p < |s.pc| ==> s.pc[p] == User || s.pc[p] == Idle;
    hide HasChild;
  }

  lemma {:induction false} RunInv(run: seq<State>, k: nat)
    requires Run(run) && k < |run|
    ensures Inv(run[k])
    decreases k
  {
    hide Start, Inv;
    if k == 0 {
      StartInv(run[0]);
    } else {
      RunInv(run, k - 1);
      assert Step(run[k - 1], run[k - 1 + 1]);
      var p, a :| Act(run[k - 1], run[k], p, a);
      StepInv(run[k - 1], run[k], p, a);
    }
  }

  // ---------------------------------------------------------------- what wait2 does

  /** In every state of every run, a process that is in sleep in wait2 has a child. */
  lemma {:induction false} SleeperHasChild(run: seq<State>, k: nat, p: nat)
    requires Run(run) && k < |run| && p < |run[k].pc| && InWait(run[k].pc[p])
    ensures |run[k].parent| == |run[k].pc| && exists c :: 0 <= c < |run[k].parent| && run[k].parent[c] == Some(p)
  {
    RunInv(run, k);
    hide LocksOk, StatesOk, ParentsOk, ForksOk, ReparentOk, ScanOk, PidsOk, Run;
    assert KidsAt(run[k].parent, p, run[k].pc[p]);
  }

  /**
    One turn of wait2: a zombie child is freed and its number collected, or a copyout fails; any
    other entry is passed; at the end of the table a process with a child sleeps, unless it has
    been killed, and any other returns.
   */
  lemma {:induction false} WaitTurn(s: State, s': State, p: nat, a: Action)
    requires Inv(s) && p < |s.state| && Act(s, s', p, a) && s.pc[p].WaitScan?
    ensures Sized(s') && |s'.state| == |s.state|
    ensures var i := s.pc[p].i;
      if i < |s.state| then
        if s.parent[i] == Some(p) && s.state[i] == ZOMBIE then
          && s'.pc[p] == User && s'.waitLock == None
          && if a == WaitFault then s'.state == s.state && s'.reaped == s.reaped
             else s'.state == s.state[i := UNUSED] && s'.parent[i] == None && s'.reaped == s.reaped + {s.pid[i]}
        else s'.pc[p].WaitScan? && s'.pc[p].i == i + 1 && s'.waitLock == Some(p) && s'.state == s.state && s'.reaped == s.reaped
      else if (exists c :: 0 <= c < |s.parent| && s.parent[c] == Some(p)) && !s.killed[p] then
        s'.pc[p] == WaitCall && s'.waitLock == Some(p) && s'.state == s.state && s'.reaped == s.reaped
      else s'.pc[p] == User && s'.waitLock == None && s'.state == s.state && s'.reaped == s.reaped
  {
    hide LocksOk, StatesOk, ParentsOk, ForksOk, ReparentOk, ScanOk, KidsOk, PidsOk, Act;
    About(s, p);
    ScanActions(s, s', p, a);
    if s.pc[p].i < |s.state| {
      ScanTurn(s, s', p, a);
    } else {
      EndTurn(s, s', p, a);
    }
  }

  predicate OfScan(a: Action)
  {
    a == ScanNext || a == Reap || a == WaitFault || a == WaitNone || a == WaitKilled || a == CallSleep
  }

  lemma {:induction false} ScanActions(s: State, s': State, p: nat, a: Action)
    requires Sized(s) && p < |s.state| && Act(s, s', p, a) && s.pc[p].WaitScan? && s.state[p] == RUNNING
    ensures OfScan(a)
  {
    hide Move;
    if Moves(a) {
      ScanMoves(s, p, a);
    }
  }

  lemma {:induction false} ScanMoves(s: State, p: nat, a: Action)
    requires Sized(s) && p < |s.state| && Moves(a) && Move(s, p, a).Some? && s.pc[p].WaitScan? && s.state[p] == RUNNING
    ensures OfScan(a)
  {
  }

  lemma {:induction false} ScanTurn(s: State, s': State, p: nat, a: Action)
    requires Sized(s) && p < |s.state| && Act(s, s', p, a) && OfScan(a) && s.pc[p].WaitScan? && s.pc[p].i < |s.state|
    requires s.state[p] == RUNNING && s.waitLock == Some(p) && s.lock[p] != Some(p)
    ensures Sized(s') && |s'.state| == |s.state|
    ensures var i := s.pc[p].i;
      if s.parent[i] == Some(p) && s.state[i] == ZOMBIE then
        && s'.pc[p] == User && s'.waitLock == None
        && if a == WaitFault then s'.state == s.state && s'.reaped == s.reaped
           else s'.state == s.state[i := UNUSED] && s'.parent[i] == None && s'.reaped == s.reaped + {s.pid[i]}
      else s'.pc[p].WaitScan? && s'.pc[p].i == i + 1 && s'.waitLock == Some(p) && s'.state == s.state && s'.reaped == s.reaped
  {
  }

  lemma {:induction false} EndTurn(s: State, s': State, p: nat, a: Action)
    requires Sized(s) && p < |s.state| && Act(s, s', p, a) && OfScan(a) && s.pc[p].WaitScan? && s.pc[p].i >= |s.state|
    requires s.state[p] == RUNNING && s.waitLock == Some(p) && KidsAt(s.parent, p, s.pc[p])
    ensures Sized(s') && |s'.state| == |s.state| && s'.state == s.state && s'.reaped == s.reaped
    ensures if (exists c :: 0 <= c < |s.parent| && s.parent[c] == Some(p)) && !s.killed[p]
      then s'.pc[p] == WaitCall && s'.waitLock == Some(p) else s'.pc[p] == User && s'.waitLock == None
  {
    NextChild(s.parent, p, s.pc[p].i);
    assert HasChild(s.parent, p, |s.parent|) <==> exists c :: 0 <= c < |s.parent| && s.parent[c] == Some(p);
    hide HasChild;
  }

  /** So a process that has not been killed, and meets no failed copyout, leaves wait2 without a child's number only if it has no child. */
  lemma {:induction false} WaitGivesUp(s: State, s': State, p: nat, a: Action)
    requires Inv(s) && p < |s.state| && Act(s, s', p, a) && s.pc[p].WaitScan? && a != WaitFault && !s.killed[p]
    ensures p < |s'.pc| && |s.parent| == |s.pc|
    ensures s'.pc[p] == User && s'.reaped == s.reaped ==> forall c :: 0 <= c < |s.parent| ==> s.parent[c] != Some(p)
  {
    hide Act, LocksOk, StatesOk, ParentsOk, ForksOk, ReparentOk, ScanOk, KidsOk, PidsOk;
    WaitTurn(s, s', p, a);
    if s.pc[p].i < |s.state| && s.state[s.pc[p].i] == ZOMBIE {
      CollectedOnce(s, s.pc[p].i);
    }
  }

  /** wait2's scan can go on, but for a child whose lock is taken. */
  lemma {:induction false} WaitCanGo(s: State, p: nat) returns (s': State, a: Action)
    requires Inv(s) && p < |s.state| && s.pc[p].WaitScan?
    requires s.pc[p].i < |s.state| && s.parent[s.pc[p].i] == Some(p) ==> s.lock[s.pc[p].i] == None
    ensures Act(s, s', p, a) && a != WaitFault
  {
    hide LocksOk, StatesOk, ParentsOk, ForksOk, ReparentOk, ScanOk, KidsOk, PidsOk;
    About(s, p);
    LockHolder(s, p);
    var i := s.pc[p].i;
    if i < |s.state| && s.parent[i] == Some(p) && s.state[i] == ZOMBIE {
      s' := Changed(s.(pid := s.pid[i := 0], killed := s.killed[i := false], reaped := s.reaped + {s.pid[i]}), p, User, i, Idle, UNUSED, None, NoChan, None, None);
      a := Reap;
    } else {
      a := if i < |s.state| then ScanNext else if !s.pc[p].kids then WaitNone else if s.killed[p] then WaitKilled else CallSleep;
      s' := MovedTo(s, p, Move(s, p, a).value);
    }
  }

  /** A running process that holds no lock of its own in its place has its lock free. */
  lemma {:induction false} LockHolder(s: State, p: nat)
    requires Inv(s) && p < |s.state| && s.pc[p].WaitScan?
    ensures s.lock[p] == None
  {
    hide ReparentOk, ScanOk, KidsOk, PidsOk, ParentsOk;
  }

  /** The parent of a process changes only when its parent forks it, exits, or collects it. */
  lemma {:induction false} ParentMoves(s: State, s': State, p: nat, a: Action, k: nat)
    requires Inv(s) && p < |s.state| && k < |s.state| && Act(s, s', p, a)
    ensures Sized(s') && |s'.state| == |s.state|
    ensures s'.parent[k] != s.parent[k] ==>
      || (s.parent[k] == None && s'.parent[k] == Some(p) && s.state[k] == USED)
      || (s.parent[k] == Some(p) && s'.parent[k] == Some(s.initp) && s.pc[p].ExitReparent?)
      || (s.parent[k] == Some(p) && s'.parent[k] == None && s.state[k] == ZOMBIE && s'.state[k] == UNUSED && s'.reaped == s.reaped + {s.pid[k]})
  {
    hide LocksOk, StatesOk, ParentsOk, ForksOk, ReparentOk, ScanOk, KidsOk, PidsOk, Move;
    if Forking(s.pc[p]) {
      ForkedProc(s, p);
    }
  }

  /** A process that fork makes runnable has the forker as its parent, and a number that no other process has or had. */
  lemma {:induction false} ForkedChild(s: State, s': State, p: nat)
    requires Inv(s) && p < |s.state| && Act(s, s', p, ForkRun)
    ensures var n := s.pc[p].n;
      && n < |s.state| && Sized(s') && |s'.state| == |s.state| && s.state[n] == USED && s'.state[n] == RUNNABLE && s'.parent[n] == Some(p)
      && s'.pid[n] !in s'.reaped && forall q :: 0 <= q < |s.state| && q != n && s'.state[q] != UNUSED ==> s'.pid[q] != s'.pid[n]
  {
    ForkedProc(s, p);
    hide LocksOk, StatesOk, ParentsOk, ForksOk, ReparentOk, ScanOk, KidsOk;
  }

  // ---------------------------------------------------------------- killed processes

  /** kill makes a process in sleep runnable at once, and it finds the flag set when it comes to look. */
  lemma {:induction false} KillWakes(s: State, s': State, p: nat, k: nat)
    requires Inv(s) && p < |s.state| && k < |s.state| && Act(s, s', p, Kill(k))
    ensures Sized(s') && |s'.state| == |s.state| && s'.killed[k] && s'.state[k] != SLEEPING && s'.pc == s.pc
    ensures forall j :: 0 <= j < |s.state| && j != k ==> s'.state[j] == s.state[j] && s'.killed[j] == s.killed[j]
  {
  }

  /** In sleep in wait2 with its killed flag set. */
  predicate KilledAsleep(s: State, p: nat)
    requires Sized(s) && p < |s.state|
  {
    Sleepish(s.pc[p], s.state[p]) && s.killed[p]
  }

  lemma {:induction false} KillStep(s: State, s': State, q: nat, a: Action, p: nat)
    requires Inv(s) && Act(s, s', q, a) && Sized(s') && p < |s.state| && p < |s'.state| && KilledAsleep(s', p) && !KilledAsleep(s, p)
    ensures a == Kill(p) && s.pc[p] == WaitCall
  {
    hide ReparentOk, ScanOk, KidsOk, PidsOk, ParentsOk, StatesOk, ForksOk, Act;
    if q == p {
      OwnKill(s, s', p, a);
    } else {
      OtherKill(s, s', q, a, p);
    }
  }

  /** A process that is in sleep does not do this to itself, */
  lemma {:induction false} OwnKill(s: State, s': State, p: nat, a: Action)
    requires Sized(s) && Act(s, s', p, a) && Sized(s') && p < |s'.state| && KilledAsleep(s', p)
    ensures KilledAsleep(s, p)
  {
    hide Move;
    if Moves(a) {
      KillMoves(s, p, a);
    }
  }

  /** and the steps of another one neither put it to sleep nor, but for kill, set its flag. */
  lemma {:induction false} OtherKill(s: State, s': State, q: nat, a: Action, p: nat)
    requires Sized(s) && Act(s, s', q, a) && q != p && LocksOk(s.pc, s.lock, s.waitLock)
    requires Sized(s') && p < |s.state| && p < |s'.state| && KilledAsleep(s', p) && !KilledAsleep(s, p)
    ensures a == Kill(p) && s.pc[p] == WaitCall
  {
    hide Move;
    if a.Kill? {
      KillOther(s, s', q, a.k, p);
    } else if a.Allocproc? || a in {ForkFail, ForkUnlock, ForkParent, ForkRun, Reap} {
      hide LocksOk;
      ChangeOther(s, s', q, a, p);
    } else {
      hide LocksOk;
      WakeOther(s, s', q, a, p);
    }
  }

  lemma {:induction false} KillOther(s: State, s': State, q: nat, k: nat, p: nat)
    requires Sized(s) && Act(s, s', q, Kill(k)) && q != p && LocksOk(s.pc, s.lock, s.waitLock)
    requires Sized(s') && p < |s.state| && p < |s'.state| && KilledAsleep(s', p) && !KilledAsleep(s, p)
    ensures k == p && s.pc[p] == WaitCall
  {
  }

  lemma {:induction false} ChangeOther(s: State, s': State, q: nat, a: Action, p: nat)
    requires Sized(s) && Act(s, s', q, a) && q != p && (a.Allocproc? || a in {ForkFail, ForkUnlock, ForkParent, ForkRun, Reap})
    requires Sized(s') && p < |s.state| && p < |s'.state| && KilledAsleep(s', p)
    ensures KilledAsleep(s, p)
  {
  }

  lemma {:induction false} WakeOther(s: State, s': State, q: nat, a: Action, p: nat)
    requires Sized(s) && Act(s, s', q, a) && q != p && (Moves(a) || a in {Reparent, WakeInit, WakeParent})
    requires Sized(s') && p < |s.state| && p < |s'.state| && KilledAsleep(s', p)
    ensures KilledAsleep(s, p)
  {
    hide Move;
  }

  /** Only a process that is not killed calls sleep. */
  lemma {:induction false} KillMoves(s: State, p: nat, a: Action)
    requires Sized(s) && p < |s.state| && Moves(a) && Move(s, p, a).Some?
    ensures var m := Move(s, p, a).value; Sleepish(m.pc, m.state) ==> Sleepish(s.pc[p], s.state[p]) || !s.killed[p]
  {
  }

  /**
    A killed process is in sleep in wait2 only if the kill came while it had made its test and not
    yet taken its own lock, and it has been in that sleep ever since.
   */
  lemma {:induction false} KilledSleeper(run: seq<State>, k: nat, p: nat) returns (j: nat, q: nat)
    requires Run(run) && k < |run| && p < |run[k].state| && KilledAsleep(run[k], p)
    ensures j < k && p < |run[j].state| && run[j].pc[p] == WaitCall && Act(run[j], run[j + 1], q, Kill(p))
    ensures forall t :: j < t <= k ==> p < |run[t].state| && KilledAsleep(run[t], p)
    decreases k
  {
    hide Act, Inv, KilledAsleep;
    if k == 0 {
      StartAwake(run[0], p);
    }
    RunInv(run, k - 1);
    assert Step(run[k - 1], run[k - 1 + 1]);
    var e, a :| Act(run[k - 1], run[k], e, a);
    SameTable(run[k - 1], run[k], e, a);
    if KilledAsleep(run[k - 1], p) {
      j, q := KilledSleeper(run, k - 1, p);
    } else {
      KillStep(run[k - 1], run[k], e, a, p);
      j, q := k - 1, e;
    }
  }

  lemma {:induction false} SameTable(s: State, s': State, p: nat, a: Action)
    requires Sized(s) && Act(s, s', p, a)
    ensures Sized(s') && |s'.state| == |s.state|
  {
    hide Move;
  }

  lemma {:induction false} StartAwake(s: State, p: nat)
    requires Start(s) && p < |s.state|
    ensures !KilledAsleep(s, p)
  {
  }

  /** A table of two processes, init and a child. */
  function Two(st0: PState, st1: PState, par: Option<nat>, ch: Chan, killed: bool, pc0: Pc, pc1: Pc, lock0: Option<nat>, lock1: Option<nat>, w: Option<nat>): (s: State)
    ensures Sized(s) && |s.state| == 2
  {
    State(0, [st0, st1], [None, par], [ch, NoChan], [1, 2], [killed, false], [pc0, pc1], [lock0, lock1], w, 3, {})
  }

  /** A run of two processes: init forks a child, and calls wait2; the child kills it just before it sleeps. */
  function Scene(i: nat): (s: State)
    ensures Sized(s) && |s.state| == 2
  {
    var k := Some(0);
    match i
    case 0 => State(0, [RUNNABLE, UNUSED], [None, None], [NoChan, NoChan], [1, 0], [false, false], [User, Idle], [None, None], None, 2, {})
    case 1 => State(0, [RUNNING, UNUSED], [None, None], [NoChan, NoChan], [1, 0], [false, false], [User, Idle], [None, None], None, 2, {})
    case 2 => Two(RUNNING, USED, None, NoChan, false, ForkHold(1), Idle, None, k, None)
    case 3 => Two(RUNNING, USED, None, NoChan, false, ForkLink(1), Idle, None, None, None)
    case 4 => Two(RUNNING, USED, k, NoChan, false, ForkStart(1), Idle, None, None, None)
    case 5 => Two(RUNNING, RUNNABLE, k, NoChan, false, User, User, None, None, None)
    case 6 => Two(RUNNING, RUNNING, k, NoChan, false, User, User, None, None, None)
    case 7 => Two(RUNNING, RUNNING, k, NoChan, false, WaitScan(0, false), User, None, None, k)
    case 8 => Two(RUNNING, RUNNING, k, NoChan, false, WaitScan(1, false), User, None, None, k)
    case 9 => Two(RUNNING, RUNNING, k, NoChan, false, WaitScan(2, true), User, None, None, k)
    case 10 => Two(RUNNING, RUNNING, k, NoChan, false, WaitCall, User, None, None, k)
    case 11 => Two(RUNNING, RUNNING, k, NoChan, true, WaitCall, User, None, None, k)
    case 12 => Two(RUNNING, RUNNING, k, NoChan, true, WaitHold, User, k, None, k)
    case 13 => Two(RUNNING, RUNNING, k, NoChan, true, WaitLocked, User, k, None, None)
    case 14 => Two(SLEEPING, RUNNING, k, OfProc(0), true, WaitSleeping, User, k, None, None)
    case _ => Two(SLEEPING, RUNNING, k, OfProc(0), true, Asleep, User, None, None, None)
  }

  lemma {:induction false} Scene1()
    ensures Act(Scene(0), Scene(1), 0, Dispatch)
  {
  }

  lemma {:induction false} Scene2()
    ensures Act(Scene(1), Scene(2), 0, Allocproc(1))
  {
  }

  lemma {:induction false} Scene3()
    ensures Act(Scene(2), Scene(3), 0, ForkUnlock)
  {
  }

  lemma {:induction false} Scene4()
    ensures Act(Scene(3), Scene(4), 0, ForkParent)
  {
  }

  lemma {:induction false} Scene5()
    ensures Act(Scene(4), Scene(5), 0, ForkRun)
  {
  }

  lemma {:induction false} Scene6()
    ensures Act(Scene(5), Scene(6), 1, Dispatch)
  {
  }

  lemma {:induction false} Scene7()
    ensures Act(Scene(6), Scene(7), 0, WaitStart)
  {
  }

  lemma {:induction false} Scene8()
    ensures Act(Scene(7), Scene(8), 0, ScanNext)
  {
  }

  lemma {:induction false} Scene9()
    ensures Act(Scene(8), Scene(9), 0, ScanNext)
  {
  }

  lemma {:induction false} Scene10()
    ensures Act(Scene(9), Scene(10), 0, CallSleep)
  {
  }

  lemma {:induction false} Scene11()
    ensures Act(Scene(10), Scene(11), 1, Kill(0))
  {
  }

  lemma {:induction false} Scene12()
    ensures Act(Scene(11), Scene(12), 0, SleepLock)
  {
  }

  lemma {:induction false} Scene13()
    ensures Act(Scene(12), Scene(13), 0, SleepRelease)
  {
  }

  lemma {:induction false} Scene14()
    ensures Act(Scene(13), Scene(14), 0, SleepSet)
  {
  }

  lemma {:induction false} Scene15()
    ensures Act(Scene(14), Scene(15), 0, SleepSwitch)
  {
  }

  lemma {:induction false} SceneSteps(i: nat)
    requires i < 15
    ensures Step(Scene(i), Scene(i + 1))
  {
    hide Act, Scene;
    match i
    case 0 => Scene1();
    case 1 => Scene2();
    case 2 => Scene3();
    case 3 => Scene4();
    case 4 => Scene5();
    case 5 => Scene6();
    case 6 => Scene7();
    case 7 => Scene8();
    case 8 => Scene9();
    case 9 => Scene10();
    case 10 => Scene11();
    case 11 => Scene12();
    case 12 => Scene13();
    case 13 => Scene14();
    case 14 => Scene15();
  }

  /** A kill between wait2's test and sleep is missed: the parent sleeps on, with its flag set, every lock free and its child running. */
  lemma {:induction false} KillMissed() returns (run: seq<State>)
    ensures Run(run) && var s := run[|run| - 1];
      && |s.state| == 2 && s.pc[0] == Asleep && s.state[0] == SLEEPING && s.killed[0]
      && s.waitLock == None && s.lock == [None, None] && s.pc[1] == User && s.state[1] == RUNNING
  {
    run := seq(16, (i: nat) => Scene(i));
    assert Start(Scene(0)) && run[15] == Scene(15);
    hide Scene, Step, Start;
    forall i | 0 <= i < |run| - 1
      ensures Step(run[i], run[i + 1])
    {
      SceneSteps(i);
    }
  }
}

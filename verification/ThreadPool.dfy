/** The fixed-size pool of src/thread_pool.cpp as a machine of atomic steps.
    Every access to a lock-protected field is a step of the thread that owns
    the lock; the two accesses the code makes without it (the read of the
    generation at line 24 and the use of `fn_` at line 39) are steps of their own.
    One dispatcher thread calls `parallel_for` and, at the end, the destructor. */
module ThreadPool {

  /** Identity of the callable handed to one `parallel_for`. */
  type FunctionId = nat

  datatype Owner = Free | ByWorker(id: nat) | ByDispatcher

  datatype WorkerPc =
    | Spawned                               // about to read generation_ without the lock
    | Locking                               // waiting for the lock, then tests the predicate
    | Testing                               // owns the lock, evaluates the wait predicate
    | Sleeping                              // in the wait set of cv_
    | Claiming                              // owns the lock, at the head of the task loop
    | Claimed(task: int)                    // released the lock, has not read fn_ yet
    | Running(task: int, fn: FunctionId)    // inside (*fn_)(task)
    | Relocking                             // task done, waiting for the lock
    | Retiring                              // owns the lock, decrements active_
    | Signalling                            // owns the lock, about to notify
    | Exited

  datatype WorkerState = WorkerState(pc: WorkerPc, localGen: int)

  datatype DispatcherPc =
    | Idle
    | WantPublish(n: int, f: FunctionId) | Publishing(n: int, f: FunctionId)
    | Announcing | WantWait | TestingDone | SleepingDone
    | WantStop | Stopping | AnnouncingStop | Joining | Destroyed

  /** One `parallel_for` call that published work. */
  datatype Call = Call(n: int, fn: FunctionId)

  /** The evaluation of one task: which call it was run for, which task, which callable. */
  datatype Run = Run(call: int, task: int, fn: FunctionId)

  datatype State = State(
    ws: seq<WorkerState>, lock: Owner, main: DispatcherPc,
    fn: FunctionId, nTasks: int, next: int, active: int, gen: int, stop: bool,
    calls: seq<Call>, started: multiset<Run>, finished: multiset<Run>)

  datatype Step =
    | WorkerStep(i: nat)
    | DispatcherStep
    | BeginCall(n: int, fn: FunctionId)
    | BeginDestroy
    | SpuriousWorker(i: nat)
    | SpuriousDispatcher

  // ---------------------------------------------------------------- the machine

  function Init(nThreads: nat): State {
    State(seq(nThreads, i => WorkerState(Spawned, 0)), Free, Idle, 0, 0, 0, 0, 0, false,
          [], multiset{}, multiset{})
  }

  function WakeWorker(w: WorkerState): WorkerState {
    if w.pc.Sleeping? then w.(pc := Locking) else w
  }

  function WakeAll(ws: seq<WorkerState>): (r: seq<WorkerState>)
    ensures |r| == |ws|
    ensures forall i :: 0 <= i < |ws| ==> r[i] == WakeWorker(ws[i])
  {
    seq(|ws|, i requires 0 <= i < |ws| => WakeWorker(ws[i]))
  }

  /** `cv_.notify_all()`: dispatch and completion share one condition variable. */
  function NotifyAll(s: State): State {
    s.(ws := WakeAll(s.ws), main := if s.main.SleepingDone? then WantWait else s.main)
  }

  predicate WorkerWakes(s: State, w: WorkerState) {
    s.stop || s.gen != w.localGen
  }

  predicate Done(s: State) {
    s.active == 0 && s.next >= s.nTasks
  }

  predicate WorkerEnabled(s: State, i: nat) {
    i < |s.ws| &&
    match s.ws[i].pc
    case Sleeping => false
    case Exited => false
    case Locking => s.lock.Free?
    case Relocking => s.lock.Free?
    case _ => true
  }

  function SetPc(s: State, i: nat, pc: WorkerPc): State
    requires i < |s.ws|
  {
    s.(ws := s.ws[i := s.ws[i].(pc := pc)])
  }

  function WorkerNext(s: State, i: nat): State
    requires WorkerEnabled(s, i)
  {
    var w := s.ws[i];
    match w.pc
    case Spawned => s.(ws := s.ws[i := WorkerState(Locking, s.gen - 1)])
    case Locking => SetPc(s, i, Testing).(lock := ByWorker(i))
    case Testing =>
      if !WorkerWakes(s, w) then SetPc(s, i, Sleeping).(lock := Free)
      else if s.stop then SetPc(s, i, Exited).(lock := Free)
      else s.(ws := s.ws[i := WorkerState(Claiming, s.gen)])
    case Claiming =>
      if s.next < s.nTasks
      then SetPc(s, i, Claimed(s.next)).(next := s.next + 1, active := s.active + 1, lock := Free)
      else SetPc(s, i, Locking).(lock := Free)
    case Claimed(task) =>
      SetPc(s, i, Running(task, s.fn)).(started := s.started + multiset{Run(w.localGen - 1, task, s.fn)})
    case Running(task, fn) =>
      SetPc(s, i, Relocking).(finished := s.finished + multiset{Run(w.localGen - 1, task, fn)})
    case Relocking => SetPc(s, i, Retiring).(lock := ByWorker(i))
    case Retiring =>
      var s1 := s.(active := s.active - 1);
      SetPc(s1, i, if Done(s1) then Signalling else Claiming)
    case Signalling => NotifyAll(SetPc(s, i, Claiming))
  }

  predicate AllExited(s: State) {
    forall i :: 0 <= i < |s.ws| ==> s.ws[i].pc.Exited?
  }

  predicate DispatcherEnabled(s: State) {
    match s.main
    case Idle => false
    case SleepingDone => false
    case Destroyed => false
    case WantPublish(_, _) => s.lock.Free?
    case WantWait => s.lock.Free?
    case WantStop => s.lock.Free?
    case Joining => AllExited(s)
    case _ => true
  }

  /** The fields a `parallel_for` overwrites under the lock. */
  function Publish(s: State, n: int, f: FunctionId): State {
    s.(fn := f, nTasks := n, next := 0, active := 0, gen := s.gen + 1, calls := s.calls + [Call(n, f)])
  }

  function DispatcherNext(s: State): State
    requires DispatcherEnabled(s)
  {
    match s.main
    case WantPublish(n, f) => s.(main := Publishing(n, f), lock := ByDispatcher)
    case Publishing(n, f) => Publish(s, n, f).(main := Announcing, lock := Free)
    case Announcing => NotifyAll(s).(main := WantWait)
    case WantWait => s.(main := TestingDone, lock := ByDispatcher)
    case TestingDone => s.(main := if Done(s) then Idle else SleepingDone, lock := Free)
    case WantStop => s.(main := Stopping, lock := ByDispatcher)
    case Stopping => s.(stop := true, gen := s.gen + 1, main := AnnouncingStop, lock := Free)
    case AnnouncingStop => NotifyAll(s).(main := Joining)
    case Joining => s.(main := Destroyed)
  }

  predicate Enabled(s: State, step: Step) {
    match step
    case WorkerStep(i) => WorkerEnabled(s, i)
    case DispatcherStep => DispatcherEnabled(s)
    case BeginCall(_, _) => s.main.Idle?
    case BeginDestroy => s.main.Idle?
    case SpuriousWorker(i) => i < |s.ws| && s.ws[i].pc.Sleeping?
    case SpuriousDispatcher => s.main.SleepingDone?
  }

  function Next(s: State, step: Step): State
    requires Enabled(s, step)
  {
    match step
    case WorkerStep(i) => WorkerNext(s, i)
    case DispatcherStep => DispatcherNext(s)
    case BeginCall(n, f) => if n <= 0 then s else s.(main := WantPublish(n, f))
    case BeginDestroy => s.(main := WantStop)
    case SpuriousWorker(i) => SetPc(s, i, Locking)
    case SpuriousDispatcher => s.(main := WantWait)
  }

  /** `steps` can be taken one after another from `s`. */
  predicate Possible(s: State, steps: seq<Step>)
    decreases |steps|
  {
    steps == [] || (Enabled(s, steps[0]) && Possible(Next(s, steps[0]), steps[1..]))
  }

  function After(s: State, steps: seq<Step>): State
    requires Possible(s, steps)
    decreases |steps|
  {
    if steps == [] then s else After(Next(s, steps[0]), steps[1..])
  }

  // ---------------------------------------------------------------- the invariant

  /** Between publishing the work and seeing it done. */
  predicate InCall(s: State) {
    s.main.Announcing? || s.main.WantWait? || s.main.TestingDone? || s.main.SleepingDone?
  }

  predicate StopPhase(s: State) {
    s.main.AnnouncingStop? || s.main.Joining? || s.main.Destroyed?
  }

  predicate HoldsLock(pc: WorkerPc) {
    pc.Testing? || pc.Claiming? || pc.Retiring? || pc.Signalling?
  }

  predicate Busy(pc: WorkerPc) {
    pc.Claimed? || pc.Running? || pc.Relocking? || pc.Retiring?
  }

  ghost predicate LockInv(s: State) {
    && (forall i :: 0 <= i < |s.ws| ==> (HoldsLock(s.ws[i].pc) <==> s.lock == ByWorker(i)))
    && (s.lock.ByDispatcher? <==> s.main.Publishing? || s.main.TestingDone? || s.main.Stopping?)
    && (s.lock.ByWorker? ==> s.lock.id < |s.ws|)
  }

  /** Things summed over the workers: how many are busy, or how far each is from sleep. */
  datatype Metric = BusyCount | Distance(gen: int, stop: bool)

  function Weight(m: Metric, w: WorkerState): nat {
    match m
    case BusyCount => if Busy(w.pc) then 1 else 0
    case Distance(gen, stop) =>
      var unseen := stop || gen != w.localGen;
      match w.pc
      case Spawned => 6
      case Locking => if unseen then 5 else 2
      case Testing => if unseen then 4 else 1
      case Sleeping => 0
      case Claiming => 3
      case Claimed(_) => 8
      case Running(_, _) => 7
      case Relocking => 6
      case Retiring => 5
      case Signalling => 4
      case Exited => 0
  }

  function Total(m: Metric, ws: seq<WorkerState>): nat {
    if ws == [] then 0 else Weight(m, ws[0]) + Total(m, ws[1..])
  }

  ghost predicate CallInv(s: State) {
    && 0 <= s.next <= s.nTasks
    && s.active == Total(BusyCount, s.ws)
    && s.gen == |s.calls| + (if s.stop then 1 else 0)
    && (s.stop <==> StopPhase(s))
    && (InCall(s) ==> s.calls != [] && s.calls[|s.calls| - 1] == Call(s.nTasks, s.fn))
    && (!InCall(s) ==> Done(s))
    && (s.main.WantPublish? || s.main.Publishing? ==> s.main.n > 0)
    && (forall c :: 0 <= c < |s.calls| ==> s.calls[c].n > 0)
  }

  ghost predicate GenInv(s: State) {
    forall i :: 0 <= i < |s.ws| ==>
      var w := s.ws[i];
      && (w.pc.Spawned? || w.localGen <= s.gen)
      && (Busy(w.pc) || w.pc.Claiming? || w.pc.Signalling? ==> w.localGen == s.gen && !s.stop)
      && (w.pc.Signalling? ==> InCall(s) && Done(s))
      && ((w.pc.Locking? || w.pc.Testing? || w.pc.Sleeping?) && w.localGen == s.gen ==> s.next >= s.nTasks)
      && (w.pc.Exited? ==> s.stop)
  }

  ghost predicate SignalPending(s: State) {
    exists i :: 0 <= i < |s.ws| && s.ws[i].pc.Signalling?
  }

  /** No lost wakeup: whoever sleeps on `cv_` with a true predicate has a `notify_all` coming. */
  ghost predicate WakeInv(s: State) {
    && (forall i :: 0 <= i < |s.ws| && s.ws[i].pc.Sleeping? && WorkerWakes(s, s.ws[i]) ==>
          s.main.Announcing? || s.main.AnnouncingStop?)
    && (s.main.SleepingDone? && Done(s) ==> SignalPending(s))
  }

  predicate HasTask(pc: WorkerPc) {
    pc.Claimed? || pc.Running?
  }

  /** The run that the calls so far ask for. */
  ghost predicate Asked(calls: seq<Call>, r: Run) {
    0 <= r.call < |calls| && 0 <= r.task < calls[r.call].n && r.fn == calls[r.call].fn
  }

  /** The calls whose tasks must all have run: every one that has returned. */
  ghost function Returned(s: State): nat
    requires CallInv(s)
  {
    if InCall(s) then |s.calls| - 1 else |s.calls|
  }

  ghost predicate ClaimInv(s: State) {
    && (forall i :: 0 <= i < |s.ws| && HasTask(s.ws[i].pc) ==> 0 <= s.ws[i].pc.task < s.next)
    && (forall i :: 0 <= i < |s.ws| && s.ws[i].pc.Running? ==> s.ws[i].pc.fn == s.fn)
    && (forall i, j :: 0 <= i < j < |s.ws| && HasTask(s.ws[i].pc) && HasTask(s.ws[j].pc) ==>
          s.ws[i].pc.task != s.ws[j].pc.task)
  }

  ghost predicate ClaimedBySomeone(s: State, task: int) {
    exists i :: 0 <= i < |s.ws| && s.ws[i].pc == Claimed(task)
  }

  ghost predicate HeldBySomeone(s: State, task: int) {
    exists i :: 0 <= i < |s.ws| && HasTask(s.ws[i].pc) && s.ws[i].pc.task == task
  }

  /** A run the log must contain: asked for by a returned call, or its task was handed out. */
  ghost predicate Due(s: State, r: Run)
    requires CallInv(s)
  {
    Asked(s.calls, r) && (r.call < Returned(s) || r.task < s.next)
  }

  ghost predicate StartedInv(s: State)
    requires CallInv(s)
  {
    forall r: Run :: s.started[r] ==
      if Due(s, r) && !(r.call == Returned(s) && ClaimedBySomeone(s, r.task)) then 1 else 0
  }

  ghost predicate FinishedInv(s: State)
    requires CallInv(s)
  {
    forall r: Run :: s.finished[r] ==
      if Due(s, r) && !(r.call == Returned(s) && HeldBySomeone(s, r.task)) then 1 else 0
  }

  /** Who holds the lock, which generation each thread has seen, who is asleep and why. */
  ghost predicate SyncInv(s: State) {
    LockInv(s) && CallInv(s) && GenInv(s) && WakeInv(s)
  }

  /** Which tasks are out, which runs have begun, which have ended. */
  ghost predicate LogInv(s: State)
    requires CallInv(s)
  {
    ClaimInv(s) && StartedInv(s) && FinishedInv(s)
  }

  ghost predicate Inv(s: State) {
    SyncInv(s) && LogInv(s)
  }

  // ---------------------------------------------------------------- preservation

  lemma {:induction false} TotalUpdate(m: Metric, ws: seq<WorkerState>, i: nat, w: WorkerState)
    requires i < |ws|
    ensures Total(m, ws[i := w]) == Total(m, ws) - Weight(m, ws[i]) + Weight(m, w)
  {
    if i == 0 {
      assert ws[i := w][1..] == ws[1..];
    } else {
      assert ws[i := w][1..] == ws[1..][i - 1 := w];
      TotalUpdate(m, ws[1..], i - 1, w);
    }
  }

  /** Waking sleepers changes no busy count and adds at most 5 per worker to the distance. */
  lemma {:induction false} TotalWakeAll(m: Metric, ws: seq<WorkerState>)
    ensures m.BusyCount? ==> Total(m, WakeAll(ws)) == Total(m, ws)
    ensures Total(m, WakeAll(ws)) <= Total(m, ws) + 5 * |ws|
  {
    if ws != [] {
      TotalWakeAll(m, ws[1..]);
      assert WakeAll(ws)[1..] == WakeAll(ws[1..]);
    }
  }

  lemma {:induction false} NoneBusy(ws: seq<WorkerState>)
    ensures Total(BusyCount, ws) == 0 <==> forall i :: 0 <= i < |ws| ==> !Busy(ws[i].pc)
  {
    if ws != [] {
      NoneBusy(ws[1..]);
      assert forall i :: 0 < i < |ws| ==> ws[i] == ws[1..][i - 1];
    }
  }

  lemma SpawnedSync(s: State, i: nat)
    requires SyncInv(s) && WorkerEnabled(s, i) && s.ws[i].pc.Spawned?
    ensures SyncInv(WorkerNext(s, i))
  {
    TotalUpdate(BusyCount, s.ws, i, WorkerNext(s, i).ws[i]);
  }

  lemma LockingSync(s: State, i: nat)
    requires SyncInv(s) && WorkerEnabled(s, i) && s.ws[i].pc.Locking?
    ensures SyncInv(WorkerNext(s, i))
  {
    TotalUpdate(BusyCount, s.ws, i, WorkerNext(s, i).ws[i]);
  }

  lemma TestingCalls(s: State, i: nat)
    requires SyncInv(s) && WorkerEnabled(s, i) && s.ws[i].pc.Testing?
    ensures LockInv(WorkerNext(s, i)) && CallInv(WorkerNext(s, i))
  {
    hide WakeInv;
    TotalUpdate(BusyCount, s.ws, i, WorkerNext(s, i).ws[i]);
  }

  lemma TestingSync(s: State, i: nat)
    requires SyncInv(s) && WorkerEnabled(s, i) && s.ws[i].pc.Testing?
    ensures SyncInv(WorkerNext(s, i))
  {
    TestingCalls(s, i);
    TestingWakes(s, i);
  }

  lemma TestingWakes(s: State, i: nat)
    requires SyncInv(s) && WorkerEnabled(s, i) && s.ws[i].pc.Testing?
    ensures GenInv(WorkerNext(s, i)) && WakeInv(WorkerNext(s, i))
  {
  }

  lemma ClaimingCalls(s: State, i: nat)
    requires SyncInv(s) && WorkerEnabled(s, i) && s.ws[i].pc.Claiming?
    ensures LockInv(WorkerNext(s, i)) && CallInv(WorkerNext(s, i))
  {
    hide WakeInv;
    TotalUpdate(BusyCount, s.ws, i, WorkerNext(s, i).ws[i]);
  }

  lemma ClaimingSync(s: State, i: nat)
    requires SyncInv(s) && WorkerEnabled(s, i) && s.ws[i].pc.Claiming?
    ensures SyncInv(WorkerNext(s, i))
  {
    ClaimingCalls(s, i);
    ClaimingWakes(s, i);
  }

  lemma ClaimingWakes(s: State, i: nat)
    requires SyncInv(s) && WorkerEnabled(s, i) && s.ws[i].pc.Claiming?
    ensures GenInv(WorkerNext(s, i)) && WakeInv(WorkerNext(s, i))
  {
  }

  lemma ClaimedSync(s: State, i: nat)
    requires SyncInv(s) && WorkerEnabled(s, i) && s.ws[i].pc.Claimed?
    ensures SyncInv(WorkerNext(s, i))
  {
    TotalUpdate(BusyCount, s.ws, i, WorkerNext(s, i).ws[i]);
    NoneBusy(s.ws);
  }

  lemma RunningSync(s: State, i: nat)
    requires SyncInv(s) && WorkerEnabled(s, i) && s.ws[i].pc.Running?
    ensures SyncInv(WorkerNext(s, i))
  {
    TotalUpdate(BusyCount, s.ws, i, WorkerNext(s, i).ws[i]);
    NoneBusy(s.ws);
  }

  lemma RelockingSync(s: State, i: nat)
    requires SyncInv(s) && WorkerEnabled(s, i) && s.ws[i].pc.Relocking?
    ensures SyncInv(WorkerNext(s, i))
  {
    TotalUpdate(BusyCount, s.ws, i, WorkerNext(s, i).ws[i]);
  }

  lemma RetiringSync(s: State, i: nat)
    requires SyncInv(s) && WorkerEnabled(s, i) && s.ws[i].pc.Retiring?
    ensures SyncInv(WorkerNext(s, i))
  {
    TotalUpdate(BusyCount, s.ws, i, WorkerNext(s, i).ws[i]);
    NoneBusy(s.ws);
    assert WorkerNext(s, i).ws[i].pc.Signalling? ==> SignalPending(WorkerNext(s, i));
  }

  lemma SignallingSync(s: State, i: nat)
    requires SyncInv(s) && WorkerEnabled(s, i) && s.ws[i].pc.Signalling?
    ensures SyncInv(WorkerNext(s, i))
  {
    var claiming := s.ws[i].(pc := Claiming);
    TotalUpdate(BusyCount, s.ws, i, claiming);
    TotalWakeAll(BusyCount, s.ws[i := claiming]);
  }

  lemma NotifySync(s: State)
    requires SyncInv(s) && (s.main.Announcing? || s.main.AnnouncingStop?)
    ensures SyncInv(DispatcherNext(s))
  {
    TotalWakeAll(BusyCount, s.ws);
  }

  lemma DispatcherSync(s: State)
    requires SyncInv(s) && DispatcherEnabled(s)
    ensures SyncInv(DispatcherNext(s))
  {
    if s.main.Announcing? || s.main.AnnouncingStop? {
      NotifySync(s);
    } else {
      NoneBusy(s.ws);
    }
  }

  lemma EnvironmentSync(s: State, step: Step)
    requires SyncInv(s) && Enabled(s, step) && !step.WorkerStep? && !step.DispatcherStep?
    ensures SyncInv(Next(s, step))
  {
    if step.SpuriousWorker? { SpuriousSync(s, step.i); }
  }

  lemma SpuriousSync(s: State, i: nat)
    requires SyncInv(s) && i < |s.ws| && s.ws[i].pc.Sleeping?
    ensures SyncInv(SetPc(s, i, Locking))
  {
    TotalUpdate(BusyCount, s.ws, i, s.ws[i].(pc := Locking));
  }

  /** The logs only depend on the calls, the claim counter and the workers that hold a task. */
  lemma LogFrame(s: State, s': State)
    requires CallInv(s) && CallInv(s') && LogInv(s)
    requires s'.calls == s.calls && s'.next == s.next && s'.fn == s.fn && (InCall(s) <==> InCall(s'))
    requires s'.started == s.started && s'.finished == s.finished && |s'.ws| == |s.ws|
    requires forall i :: 0 <= i < |s.ws| && (HasTask(s.ws[i].pc) || HasTask(s'.ws[i].pc)) ==> s'.ws[i].pc == s.ws[i].pc
    ensures LogInv(s')
  {
    assert forall t :: ClaimedBySomeone(s, t) <==> ClaimedBySomeone(s', t);
    assert forall t :: HeldBySomeone(s, t) <==> HeldBySomeone(s', t);
  }

  lemma ClaimLog(s: State, i: nat)
    requires SyncInv(s) && LogInv(s) && i < |s.ws| && s.ws[i].pc.Claiming? && s.next < s.nTasks
    requires CallInv(WorkerNext(s, i))
    ensures LogInv(WorkerNext(s, i))
  {
    var s' := WorkerNext(s, i);
    assert ClaimedBySomeone(s', s.next) && HeldBySomeone(s', s.next);
    forall t | t != s.next
      ensures ClaimedBySomeone(s, t) <==> ClaimedBySomeone(s', t)
      ensures HeldBySomeone(s, t) <==> HeldBySomeone(s', t)
    {
      if ClaimedBySomeone(s, t) {
        var j :| 0 <= j < |s.ws| && s.ws[j].pc == Claimed(t);
        assert s'.ws[j].pc == Claimed(t);
      }
      if HeldBySomeone(s, t) {
        var j :| 0 <= j < |s.ws| && HasTask(s.ws[j].pc) && s.ws[j].pc.task == t;
        assert s'.ws[j] == s.ws[j];
      }
    }
  }

  /** Beginning a task: it is no longer merely claimed, everything else is as it was. */
  lemma StartClaims(s: State, i: nat, t: int)
    requires ClaimInv(s) && i < |s.ws| && s.ws[i].pc.Claimed?
    ensures ClaimedBySomeone(WorkerNext(s, i), t) <==> ClaimedBySomeone(s, t) && t != s.ws[i].pc.task
    ensures HeldBySomeone(s, t) <==> HeldBySomeone(WorkerNext(s, i), t)
  {
    var s' := WorkerNext(s, i);
    if ClaimedBySomeone(s, t) && t != s.ws[i].pc.task {
      var j :| 0 <= j < |s.ws| && s.ws[j].pc == Claimed(t);
      assert s'.ws[j].pc == Claimed(t);
    }
    if HeldBySomeone(s, t) {
      var j :| 0 <= j < |s.ws| && HasTask(s.ws[j].pc) && s.ws[j].pc.task == t;
      assert HasTask(s'.ws[j].pc) && s'.ws[j].pc.task == t;
    }
  }

  /** The task at hand is out, its call is the one in progress, and its run is the one to log. */
  lemma TaskAtHand(s: State, i: nat)
    requires SyncInv(s) && ClaimInv(s) && i < |s.ws| && HasTask(s.ws[i].pc)
    ensures InCall(s) && s.ws[i].localGen == s.gen == |s.calls| && HeldBySomeone(s, s.ws[i].pc.task)
    ensures 0 <= s.ws[i].pc.task < s.next <= s.nTasks && s.calls != [] && s.calls[|s.calls| - 1] == Call(s.nTasks, s.fn)
    ensures Due(s, Run(s.ws[i].localGen - 1, s.ws[i].pc.task, s.fn)) && Returned(s) == s.ws[i].localGen - 1
  {
    NoneBusy(s.ws);
  }

  lemma StartLog(s: State, i: nat)
    requires SyncInv(s) && LogInv(s) && i < |s.ws| && s.ws[i].pc.Claimed?
    requires CallInv(WorkerNext(s, i))
    ensures LogInv(WorkerNext(s, i))
  {
    TaskAtHand(s, i);
    forall t ensures ClaimedBySomeone(WorkerNext(s, i), t) <==> ClaimedBySomeone(s, t) && t != s.ws[i].pc.task
      ensures HeldBySomeone(s, t) <==> HeldBySomeone(WorkerNext(s, i), t)
    {
      StartClaims(s, i, t);
    }
    assert ClaimedBySomeone(s, s.ws[i].pc.task);
    hide LockInv, GenInv, WakeInv, CallInv, HeldBySomeone, ClaimedBySomeone;
  }

  /** Ending a task: it is no longer held, everything else is as it was. */
  lemma FinishHolds(s: State, i: nat, t: int)
    requires ClaimInv(s) && i < |s.ws| && s.ws[i].pc.Running?
    ensures HeldBySomeone(WorkerNext(s, i), t) <==> HeldBySomeone(s, t) && t != s.ws[i].pc.task
    ensures ClaimedBySomeone(s, t) <==> ClaimedBySomeone(WorkerNext(s, i), t)
  {
    var s' := WorkerNext(s, i);
    if ClaimedBySomeone(s, t) {
      var j :| 0 <= j < |s.ws| && s.ws[j].pc == Claimed(t);
      assert s'.ws[j].pc == Claimed(t);
    }
    if HeldBySomeone(s, t) && t != s.ws[i].pc.task {
      var j :| 0 <= j < |s.ws| && HasTask(s.ws[j].pc) && s.ws[j].pc.task == t;
      assert s'.ws[j] == s.ws[j];
    }
  }

  lemma FinishLog(s: State, i: nat)
    requires SyncInv(s) && LogInv(s) && i < |s.ws| && s.ws[i].pc.Running?
    requires CallInv(WorkerNext(s, i))
    ensures LogInv(WorkerNext(s, i))
  {
    TaskAtHand(s, i);
    forall t ensures HeldBySomeone(WorkerNext(s, i), t) <==> HeldBySomeone(s, t) && t != s.ws[i].pc.task
      ensures ClaimedBySomeone(s, t) <==> ClaimedBySomeone(WorkerNext(s, i), t)
    {
      FinishHolds(s, i, t);
    }
    hide LockInv, GenInv, WakeInv, CallInv, HeldBySomeone, ClaimedBySomeone;
  }

  lemma PublishLog(s: State)
    requires SyncInv(s) && LogInv(s) && s.main.Publishing?
    requires CallInv(DispatcherNext(s))
    ensures LogInv(DispatcherNext(s))
  {
    NoneBusy(s.ws);
    var s' := DispatcherNext(s);
    assert forall c :: 0 <= c < |s.calls| ==> s'.calls[c] == s.calls[c];
  }

  lemma ReturnLog(s: State)
    requires SyncInv(s) && LogInv(s) && s.main.TestingDone? && Done(s)
    requires CallInv(DispatcherNext(s))
    ensures LogInv(DispatcherNext(s))
  {
    NoneBusy(s.ws);
  }

  lemma WorkerSync(s: State, i: nat)
    requires SyncInv(s) && WorkerEnabled(s, i)
    ensures SyncInv(WorkerNext(s, i))
  {
    match s.ws[i].pc
    case Spawned => SpawnedSync(s, i);
    case Locking => LockingSync(s, i);
    case Testing => TestingSync(s, i);
    case Claiming => ClaimingSync(s, i);
    case Claimed(_) => ClaimedSync(s, i);
    case Running(_, _) => RunningSync(s, i);
    case Relocking => RelockingSync(s, i);
    case Retiring => RetiringSync(s, i);
    case Signalling => SignallingSync(s, i);
  }

  lemma WorkerLog(s: State, i: nat)
    requires Inv(s) && WorkerEnabled(s, i) && SyncInv(WorkerNext(s, i))
    ensures LogInv(WorkerNext(s, i))
  {
    if s.ws[i].pc.Claiming? && s.next < s.nTasks {
      ClaimLog(s, i);
    } else if s.ws[i].pc.Claimed? {
      StartLog(s, i);
    } else if s.ws[i].pc.Running? {
      FinishLog(s, i);
    } else {
      LogFrame(s, WorkerNext(s, i));
    }
  }

  lemma DispatcherLog(s: State)
    requires Inv(s) && DispatcherEnabled(s) && SyncInv(DispatcherNext(s))
    ensures LogInv(DispatcherNext(s))
  {
    hide LockInv, GenInv, WakeInv;
    if s.main.Publishing? { PublishLog(s); }
    else if s.main.TestingDone? && Done(s) { ReturnLog(s); }
    else { LogFrame(s, DispatcherNext(s)); }
  }

  lemma EnvironmentLog(s: State, step: Step)
    requires Inv(s) && Enabled(s, step) && !step.WorkerStep? && !step.DispatcherStep? && SyncInv(Next(s, step))
    ensures LogInv(Next(s, step))
  {
    hide LockInv, GenInv, WakeInv;
    LogFrame(s, Next(s, step));
  }

  lemma StepKeepsInv(s: State, step: Step)
    requires Inv(s) && Enabled(s, step)
    ensures Inv(Next(s, step))
  {
    hide LockInv, CallInv, GenInv, WakeInv, LogInv, WorkerNext, DispatcherNext, DispatcherEnabled, WorkerEnabled;
    match step
    case WorkerStep(i) => WorkerSync(s, i); WorkerLog(s, i);
    case DispatcherStep => DispatcherSync(s); DispatcherLog(s);
    case _ => EnvironmentSync(s, step); EnvironmentLog(s, step);
  }

  lemma {:induction false} InitInv(nThreads: nat)
    ensures Inv(Init(nThreads))
  {
    NoneBusy(Init(nThreads).ws);
  }

  lemma {:induction false} RunKeepsInv(s: State, steps: seq<Step>)
    requires Inv(s) && Possible(s, steps)
    ensures Inv(After(s, steps))
    decreases |steps|
  {
    if steps != [] {
      StepKeepsInv(s, steps[0]);
      RunKeepsInv(Next(s, steps[0]), steps[1..]);
    }
  }

  /** What a worker's step does not touch. */
  lemma WorkerLeaves(s: State, i: nat)
    requires WorkerEnabled(s, i)
    ensures WorkerNext(s, i).fn == s.fn && |WorkerNext(s, i).ws| == |s.ws|
    ensures WorkerNext(s, i).main == s.main || (s.main.SleepingDone? && WorkerNext(s, i).main.WantWait?)
    ensures forall r: Run :: r.fn != s.fn ==> WorkerNext(s, i).started[r] == s.started[r]
  {
    hide Done, WorkerWakes, WakeAll;
  }

  // ---------------------------------------------------------------- what the environment asked for

  /** A call without tasks asks for nothing. */
  function HandedBy(step: Step): seq<Call> {
    if step.BeginCall? && step.n > 0 then [Call(step.n, step.fn)] else []
  }

  /** The calls that the steps hand to the pool, in order. */
  function Handed(steps: seq<Step>): seq<Call> {
    if steps == [] then [] else HandedBy(steps[0]) + Handed(steps[1..])
  }

  /** A call that waits to be published. */
  function Pending(s: State): seq<Call> {
    if s.main.WantPublish? || s.main.Publishing? then [Call(s.main.n, s.main.f)] else []
  }

  /** What has been published and what waits. */
  function Taken(s: State): seq<Call> {
    s.calls + Pending(s)
  }

  lemma StepHands(s: State, step: Step)
    requires Enabled(s, step)
    ensures Taken(Next(s, step)) == Taken(s) + HandedBy(step)
  {
    match step
    case WorkerStep(i) => WorkerLeaves(s, i); assert WorkerNext(s, i).calls == s.calls by { hide Done, WorkerWakes, WakeAll; }
    case DispatcherStep => hide NotifyAll, Done; assert NotifyAll(s).calls == s.calls by { NotifyKeepsCalls(s); }
    case _ =>
  }

  lemma NotifyKeepsCalls(s: State)
    ensures NotifyAll(s).calls == s.calls
  {
  }

  lemma Regroup(a: seq<Call>, b: seq<Call>, c: seq<Call>)
    ensures a + b + c == a + (b + c)
  {
  }

  /** No call is dropped, altered or made up. */
  lemma {:induction false} RunHands(s: State, steps: seq<Step>)
    requires Possible(s, steps)
    ensures Taken(After(s, steps)) == Taken(s) + Handed(steps)
    decreases |steps|
  {
    hide Next, Enabled, Taken, HandedBy;
    if steps != [] {
      StepHands(s, steps[0]);
      RunHands(Next(s, steps[0]), steps[1..]);
      Regroup(Taken(s), HandedBy(steps[0]), Handed(steps[1..]));
    }
  }

  /** The calls the pool has been asked for and has taken on: all that were handed over, except one that still waits
      to be published. */
  function TakenOn(s: State, steps: seq<Step>): seq<Call> {
    var handed := Handed(steps);
    if (s.main.WantPublish? || s.main.Publishing?) && handed != [] then handed[..|handed| - 1] else handed
  }

  lemma CallsAreHanded(nThreads: nat, steps: seq<Step>)
    requires Possible(Init(nThreads), steps)
    ensures var s := After(Init(nThreads), steps); s.calls == TakenOn(s, steps)
  {
    RunHands(Init(nThreads), steps);
    var s := After(Init(nThreads), steps);
    hide Possible, After, Handed;
    assert s.calls + Pending(s) == Handed(steps);
    if Pending(s) != [] { assert Handed(steps)[..|s.calls|] == s.calls; }
  }

  /** Has the destructor been asked for? */
  predicate StopAsked(s: State) {
    s.main.WantStop? || s.main.Stopping? || StopPhase(s)
  }

  lemma StepAsks(s: State, step: Step)
    requires Enabled(s, step)
    ensures StopAsked(Next(s, step)) <==> StopAsked(s) || step.BeginDestroy?
    ensures s.main.Destroyed? ==> Next(s, step).main.Destroyed?
  {
    match step
    case WorkerStep(i) => WorkerLeaves(s, i); hide WorkerNext;
    case _ => hide Done, WakeAll;
  }

  /** The pool stops exactly when it is asked to. */
  lemma {:induction false} StopsIffAsked(s: State, steps: seq<Step>)
    requires Possible(s, steps)
    ensures StopAsked(After(s, steps)) <==> StopAsked(s) || BeginDestroy in steps
    decreases |steps|
  {
    if steps != [] {
      StepAsks(s, steps[0]);
      hide Next, Enabled, StopAsked;
      StopsIffAsked(Next(s, steps[0]), steps[1..]);
    }
  }

  lemma JoinedStep(s: State, step: Step)
    requires Enabled(s, step) && (s.main.Destroyed? ==> AllExited(s))
    ensures Next(s, step).main.Destroyed? ==> AllExited(Next(s, step))
    ensures |Next(s, step).ws| == |s.ws|
  {
    match step
    case WorkerStep(i) => WorkerLeaves(s, i);
    case _ => hide Done, WakeAll;
  }

  /** The workers are the ones the constructor started, and the destructor does not return before every one of them
      has left its loop. */
  lemma DestroyedMeansExited(nThreads: nat, steps: seq<Step>)
    requires Possible(Init(nThreads), steps)
    ensures |After(Init(nThreads), steps).ws| == nThreads
    ensures After(Init(nThreads), steps).main.Destroyed? ==>
      forall i :: 0 <= i < nThreads ==> After(Init(nThreads), steps).ws[i].pc.Exited?
  {
    DestroyedStays(Init(nThreads), steps);
    hide Possible, After;
  }

  lemma {:induction false} DestroyedStays(s: State, steps: seq<Step>)
    requires Possible(s, steps) && (s.main.Destroyed? ==> AllExited(s))
    ensures After(s, steps).main.Destroyed? ==> AllExited(After(s, steps))
    ensures |After(s, steps).ws| == |s.ws|
    decreases |steps|
  {
    if steps != [] {
      JoinedStep(s, steps[0]);
      hide Next, Enabled, AllExited;
      DestroyedStays(Next(s, steps[0]), steps[1..]);
    }
  }

  // ---------------------------------------------------------------- safety of every run

  /** Every interleaving, every sequence of calls: whenever no call is in progress, each task of each call handed to
      the pool has been run to its end exactly once, with that call's callable, and nothing else has been run; only a
      call that waits to be published has not been run at all. */
  lemma EachTaskExactlyOnce(nThreads: nat, steps: seq<Step>)
    requires Possible(Init(nThreads), steps)
    ensures var s := After(Init(nThreads), steps);
      s.calls == TakenOn(s, steps) &&
      (!InCall(s) ==> forall r: Run ::
        s.started[r] == s.finished[r] == if Asked(TakenOn(s, steps), r) then 1 else 0)
  {
    InitInv(nThreads);
    RunKeepsInv(Init(nThreads), steps);
    CallsAreHanded(nThreads, steps);
    hide Possible, After, TakenOn;
  }

  /** While a call is in progress a task in flight belongs to it: the worker has seen the current
      generation, uses the current callable, and no other worker has the same task.  Outside a call
      no worker can reach `fn_`. */
  lemma GenerationsNeverMix(nThreads: nat, steps: seq<Step>, i: nat)
    requires Possible(Init(nThreads), steps)
    requires i < |After(Init(nThreads), steps).ws|
    requires HasTask(After(Init(nThreads), steps).ws[i].pc)
    ensures var s := After(Init(nThreads), steps);
      && InCall(s) && s.calls != [] && s.ws[i].localGen == s.gen == |s.calls|
      && 0 <= s.ws[i].pc.task < s.calls[|s.calls| - 1].n
      && s.fn == s.calls[|s.calls| - 1].fn
      && (s.ws[i].pc.Running? ==> s.ws[i].pc.fn == s.fn)
      && (forall j :: 0 <= j < |s.ws| && j != i && HasTask(s.ws[j].pc) ==> s.ws[j].pc.task != s.ws[i].pc.task)
  {
    InitInv(nThreads);
    RunKeepsInv(Init(nThreads), steps);
    NoneBusy(After(Init(nThreads), steps).ws);
  }

  /** A thread asleep on `cv_` whose predicate holds always has a `notify_all` ahead of it. */
  lemma NoLostWakeup(nThreads: nat, steps: seq<Step>)
    requires Possible(Init(nThreads), steps)
    ensures var s := After(Init(nThreads), steps);
      && (forall i :: 0 <= i < |s.ws| && s.ws[i].pc.Sleeping? && WorkerWakes(s, s.ws[i]) ==>
            s.main.Announcing? || s.main.AnnouncingStop?)
      && (s.main.SleepingDone? && Done(s) ==> SignalPending(s))
  {
    InitInv(nThreads);
    RunKeepsInv(Init(nThreads), steps);
  }

  // ---------------------------------------------------------------- liveness

  /** A step some thread takes by itself: not a new command, not a spurious wakeup. */
  predicate Own(step: Step) {
    step.WorkerStep? || step.DispatcherStep?
  }

  ghost predicate CanMove(s: State) {
    exists step :: Own(step) && Enabled(s, step)
  }

  /** No deadlock: with a worker present, an unfinished call always has a thread that can move. */
  lemma CallNeverStuck(s: State)
    requires Inv(s) && InCall(s) && s.ws != []
    ensures CanMove(s)
  {
    var i := 0;
    if s.lock.ByWorker? {
      i := s.lock.id;
    } else if !s.main.SleepingDone? {
      assert Enabled(s, DispatcherStep);
      return;
    } else if s.active > 0 {
      NoneBusy(s.ws);
      i :| 0 <= i < |s.ws| && Busy(s.ws[i].pc);
    }
    assert Enabled(s, WorkerStep(i));
  }

  /** After the destructor set the stop flag some thread can move until every worker is joined. */
  lemma ShutdownNeverStuck(s: State)
    requires Inv(s) && StopPhase(s) && !s.main.Destroyed?
    ensures CanMove(s)
  {
    if DispatcherEnabled(s) {
      assert Enabled(s, DispatcherStep);
    } else {
      var i :| 0 <= i < |s.ws| && !s.ws[i].pc.Exited?;
      if s.lock.ByWorker? {
        assert WorkerEnabled(s, s.lock.id) && Enabled(s, WorkerStep(s.lock.id));
      } else {
        assert WorkerEnabled(s, i) && Enabled(s, WorkerStep(i));
      }
    }
  }

  /** The dispatcher has been asked to publish a call or to stop, and has not done so yet. */
  predicate Requested(s: State) {
    s.main.WantPublish? || s.main.Publishing? || s.main.WantStop? || s.main.Stopping?
  }

  /** A request waits only for workers that can move. */
  lemma RequestNeverStuck(s: State)
    requires Inv(s) && Requested(s)
    ensures CanMove(s)
  {
    if s.lock.ByWorker? {
      assert Enabled(s, WorkerStep(s.lock.id));
    } else {
      assert Enabled(s, DispatcherStep);
    }
  }

  function DispatcherDistance(pc: DispatcherPc): nat {
    match pc
    case WantPublish(_, _) => 1
    case WantStop => 1
    case Announcing => 3
    case AnnouncingStop => 3
    case WantWait => 2
    case TestingDone => 1
    case _ => 0
  }

  /** `notify_all`s still to come in this phase: the announcement and the completion signal. */
  ghost function PendingNotifies(s: State): nat {
    (if s.main.Announcing? || s.main.AnnouncingStop? then 1 else 0) +
    (if !Done(s) || SignalPending(s) then 1 else 0)
  }

  /** Bounds the steps left in the phase: unclaimed tasks, wakeups to come, and how far
      every thread is from sleep. */
  ghost function Measure(s: State): nat
    requires CallInv(s)
  {
    6 * (s.nTasks - s.next) + Total(Distance(s.gen, s.stop), s.ws) + DispatcherDistance(s.main)
    + (5 * |s.ws| + 3) * PendingNotifies(s)
  }

  /** With nothing claimed or left to claim a worker's step changes none of that. */
  lemma QuietWorker(s: State, i: nat)
    requires SyncInv(s) && Done(s) && WorkerEnabled(s, i) && !s.ws[i].pc.Signalling?
    ensures Done(WorkerNext(s, i)) && !WorkerNext(s, i).ws[i].pc.Signalling?
  {
    hide LockInv, WakeInv, GenInv;
    NoneBusy(s.ws);
  }

  /** A worker's own step brings no further notification into the phase. */
  lemma WorkerPending(s: State, i: nat)
    requires SyncInv(s) && WorkerEnabled(s, i) && !s.ws[i].pc.Signalling? && (InCall(s) || StopPhase(s))
    ensures PendingNotifies(WorkerNext(s, i)) <= PendingNotifies(s)
  {
    WorkerShape(s, i);
    if Done(s) { QuietWorker(s, i); }
    var s' := WorkerNext(s, i);
    hide LockInv, WakeInv, CallInv, GenInv, WorkerNext, WorkerEnabled, Done;
    if SignalPending(s') {
      var j :| 0 <= j < |s'.ws| && s'.ws[j].pc.Signalling?;
      if j != i { assert s.ws[j].pc.Signalling?; }
    }
  }

  /** Before a request is served there is nothing left to announce. */
  lemma NothingPending(s: State)
    requires SyncInv(s) && Requested(s)
    ensures PendingNotifies(s) == 0
  {
  }

  /** What the step takes from the unclaimed tasks and the worker's distance together. */
  lemma WorkerShare(s: State, i: nat)
    requires GenInv(s) && WorkerEnabled(s, i) && !s.ws[i].pc.Signalling?
    ensures var s' := WorkerNext(s, i);
      6 * (s'.nTasks - s'.next) + Weight(Distance(s.gen, s.stop), s'.ws[i]) <
      6 * (s.nTasks - s.next) + Weight(Distance(s.gen, s.stop), s.ws[i])
  {
    var w := s.ws[i];
    assert w.pc.Claiming? ==> w.localGen == s.gen && !s.stop;
    assert w.pc.Spawned? || w.localGen <= s.gen;
    hide GenInv, NotifyAll, Done;
    var s' := WorkerNext(s, i);
    match w.pc
    case Spawned => assert s'.ws[i].pc.Locking?;
    case Locking => assert s'.ws[i] == w.(pc := Testing);
    case Testing =>
    case Claiming => assert s'.ws[i].localGen == w.localGen;
    case _ =>
  }

  lemma WorkerShape(s: State, i: nat)
    requires WorkerEnabled(s, i) && !s.ws[i].pc.Signalling?
    ensures i < |s.ws|
    ensures var s' := WorkerNext(s, i);
      s'.gen == s.gen && s'.stop == s.stop && s'.main == s.main && s'.nTasks == s.nTasks &&
      |s'.ws| == |s.ws| && s'.ws == s.ws[i := s'.ws[i]]
  {
  }

  lemma FewerTimes(a: nat, p: nat, q: nat)
    requires p <= q
    ensures a * p <= a * q
  {
    assert a * (q - p) >= 0;
  }

  lemma WorkerDistance(s: State, i: nat)
    requires SyncInv(s) && WorkerEnabled(s, i) && !s.ws[i].pc.Signalling?
    requires SyncInv(WorkerNext(s, i)) && (InCall(s) || StopPhase(s) || Requested(s))
    ensures Measure(WorkerNext(s, i)) < Measure(s)
  {
    hide LockInv, GenInv, WakeInv, CallInv, PendingNotifies, Weight, Total, WorkerNext, WorkerEnabled;
    var s' := WorkerNext(s, i);
    WorkerShape(s, i);
    TotalUpdate(Distance(s.gen, s.stop), s.ws, i, s'.ws[i]);
    if Requested(s) {
      NothingPending(s);
      NothingPending(s');
    } else {
      WorkerPending(s, i);
    }
    WorkerShare(s, i);
    FewerTimes(5 * |s.ws| + 3, PendingNotifies(s'), PendingNotifies(s));
  }

  lemma SignallingDistance(s: State, i: nat)
    requires SyncInv(s) && WorkerEnabled(s, i) && s.ws[i].pc.Signalling?
    requires SyncInv(WorkerNext(s, i))
    ensures Measure(WorkerNext(s, i)) < Measure(s)
  {
    var claiming := s.ws[i].(pc := Claiming);
    TotalUpdate(Distance(s.gen, s.stop), s.ws, i, claiming);
    TotalWakeAll(Distance(s.gen, s.stop), s.ws[i := claiming]);
    var s' := WorkerNext(s, i);
    assert SignalPending(s) && !SignalPending(s');
    assert PendingNotifies(s') == PendingNotifies(s) - 1;
  }

  lemma AnnouncementDrops(s: State)
    requires SyncInv(s) && (s.main.Announcing? || s.main.AnnouncingStop?) && SyncInv(DispatcherNext(s))
    ensures Measure(DispatcherNext(s)) < Measure(s)
  {
    hide LockInv, WakeInv, GenInv;
    TotalWakeAll(Distance(s.gen, s.stop), s.ws);
    var s' := DispatcherNext(s);
    assert SignalPending(s') ==> SignalPending(s);
    assert PendingNotifies(s') < PendingNotifies(s);
    FewerTimes(5 * |s.ws| + 3, PendingNotifies(s'), PendingNotifies(s) - 1);
  }

  lemma DispatcherDistanceDrops(s: State)
    requires SyncInv(s) && DispatcherEnabled(s) && (InCall(s) || StopPhase(s))
    requires SyncInv(DispatcherNext(s))
    requires InCall(DispatcherNext(s)) || StopPhase(DispatcherNext(s))
    ensures Measure(DispatcherNext(s)) < Measure(s) || DispatcherNext(s).main.Destroyed?
  {
    if s.main.Announcing? || s.main.AnnouncingStop? {
      AnnouncementDrops(s);
    } else {
      hide LockInv, WakeInv, GenInv, Total;
      assert DispatcherNext(s).ws == s.ws;
      assert PendingNotifies(DispatcherNext(s)) == PendingNotifies(s);
    }
  }

  lemma SpuriousDistance(s: State, step: Step)
    requires SyncInv(s) && Enabled(s, step) && (step.SpuriousWorker? || step.SpuriousDispatcher?)
    requires SyncInv(Next(s, step))
    ensures Measure(Next(s, step)) <= Measure(s) + 5
  {
    if step.SpuriousWorker? {
      TotalUpdate(Distance(s.gen, s.stop), s.ws, step.i, s.ws[step.i].(pc := Locking));
    }
    var s' := Next(s, step);
    assert SignalPending(s') ==> SignalPending(s);
  }

  /** Waiting: a request to publish or to stop that is not served yet.  Serving: a published call that has not
      returned, or a shutdown that has not joined every worker. */
  datatype Phase = Resting | Waiting | Serving

  function PhaseOf(s: State): Phase {
    if Requested(s) then Waiting
    else if InCall(s) || (StopPhase(s) && !s.main.Destroyed?) then Serving
    else Resting
  }

  /** A run all of whose steps start inside that phase. */
  ghost predicate PhaseRun(s: State, phase: Phase, steps: seq<Step>)
    decreases |steps|
  {
    steps == [] || (PhaseOf(s) == phase && Enabled(s, steps[0]) && PhaseRun(Next(s, steps[0]), phase, steps[1..]))
  }

  function SpuriousWakeups(steps: seq<Step>): nat {
    if steps == [] then 0
    else (if Own(steps[0]) then 0 else 1) + SpuriousWakeups(steps[1..])
  }

  lemma ServingStepDistance(s: State, step: Step)
    requires Inv(s) && PhaseOf(s) == Serving && Enabled(s, step) && PhaseOf(Next(s, step)) == Serving
    requires Inv(Next(s, step))
    ensures Own(step) ==> Measure(Next(s, step)) < Measure(s)
    ensures Measure(Next(s, step)) <= Measure(s) + 5
  {
    match step
    case WorkerStep(i) =>
      if s.ws[i].pc.Signalling? { SignallingDistance(s, i); } else { WorkerDistance(s, i); }
    case DispatcherStep => DispatcherDistanceDrops(s);
    case _ => SpuriousDistance(s, step);
  }

  lemma WaitingStepDistance(s: State, step: Step)
    requires Inv(s) && Requested(s) && Enabled(s, step) && Requested(Next(s, step))
    requires Inv(Next(s, step))
    ensures Own(step) ==> Measure(Next(s, step)) < Measure(s)
    ensures Measure(Next(s, step)) <= Measure(s) + 5
  {
    match step
    case WorkerStep(i) => WorkerDistance(s, i);
    case DispatcherStep => NothingPending(s); NothingPending(Next(s, step));
    case _ => SpuriousDistance(s, step);
  }

  lemma NeverStuck(s: State)
    requires Inv(s) && PhaseOf(s) != Resting && (PhaseOf(s) == Waiting || StopPhase(s) || s.ws != [])
    ensures CanMove(s)
  {
    if Requested(s) { RequestNeverStuck(s); } else if InCall(s) { CallNeverStuck(s); } else { ShutdownNeverStuck(s); }
  }

  lemma {:induction false} PhaseLasts(s: State, steps: seq<Step>)
    requires Inv(s) && PhaseOf(s) != Resting && PhaseRun(s, PhaseOf(s), steps)
    ensures |steps| <= Measure(s) + 6 * SpuriousWakeups(steps) + 1
    decreases |steps|
  {
    hide Inv, Measure, InCall, StopPhase, Requested, Next, Enabled;
    if steps != [] {
      var s' := Next(s, steps[0]);
      StepKeepsInv(s, steps[0]);
      if PhaseOf(s') == PhaseOf(s) {
        if PhaseOf(s) == Waiting { WaitingStepDistance(s, steps[0]); } else { ServingStepDistance(s, steps[0]); }
        PhaseLasts(s', steps[1..]);
      } else {
        assert steps[1..] == [];
      }
    }
  }

  /** The positions from k on at which no thread moves by itself. */
  function SpuriousAt(steps: seq<Step>, k: nat): set<nat> {
    set j: nat | k <= j < |steps| && !steps[j].WorkerStep? && !steps[j].DispatcherStep?
  }

  lemma {:induction false} WakeupsCounted(steps: seq<Step>, k: nat)
    requires k <= |steps|
    ensures SpuriousWakeups(steps[k..]) == |SpuriousAt(steps, k)|
    decreases |steps| - k
  {
    if k < |steps| {
      WakeupsCounted(steps, k + 1);
      assert steps[k..][1..] == steps[k + 1..];
      assert SpuriousAt(steps, k) == (if Own(steps[k]) then {} else {k}) + SpuriousAt(steps, k + 1);
    } else {
      assert SpuriousAt(steps, k) == {};
    }
  }

  /** Whatever the scheduler does, a request is served, a call returns and a shutdown completes: with k spurious
      wakeups a phase lasts at most Measure + 6k + 1 steps, and it is never stuck before its end. */
  lemma PhaseIsBounded(s: State, steps: seq<Step>)
    requires Inv(s) && PhaseOf(s) != Resting && PhaseRun(s, PhaseOf(s), steps)
    ensures |steps| <= Measure(s) + 1 +
      6 * |set j: nat | j < |steps| && !steps[j].WorkerStep? && !steps[j].DispatcherStep?|
    ensures PhaseOf(s) == Waiting || StopPhase(s) || s.ws != [] ==> CanMove(s)
  {
    hide Inv, Measure, InCall, StopPhase, Requested, Next, Enabled, CanMove;
    if PhaseOf(s) == Waiting || StopPhase(s) || s.ws != [] { NeverStuck(s); }
    PhaseLasts(s, steps);
    WakeupsCounted(steps, 0);
    assert steps[0..] == steps;
    assert SpuriousAt(steps, 0) == set j: nat | j < |steps| && !steps[j].WorkerStep? && !steps[j].DispatcherStep?;
  }

  /** Some thread moves by itself, and that either ends the call or shortens what is left. */
  lemma OwnMove(s: State) returns (step: Step)
    requires Inv(s) && InCall(s) && s.ws != []
    ensures Own(step) && Enabled(s, step) && Inv(Next(s, step)) && |Next(s, step).ws| == |s.ws|
    ensures Next(s, step).main.Idle? || (InCall(Next(s, step)) && Measure(Next(s, step)) < Measure(s))
  {
    CallNeverStuck(s);
    step :| Own(step) && Enabled(s, step);
    StepKeepsInv(s, step);
    StepInCall(s, step);
    hide LockInv, GenInv, WakeInv, LogInv, CallInv, Measure, Next, Enabled;
    if InCall(Next(s, step)) {
      ServingStepDistance(s, step);
    }
  }

  /** A step of the threads keeps the workers, and leaves the call only by returning. */
  lemma StepInCall(s: State, step: Step)
    requires InCall(s) && Own(step) && Enabled(s, step)
    ensures |Next(s, step).ws| == |s.ws| && (InCall(Next(s, step)) || Next(s, step).main.Idle?)
  {
    hide Done, WakeAll;
    if step.WorkerStep? {
      WorkerLeaves(s, step.i);
      hide WorkerNext, WorkerEnabled;
    } else {
      hide WorkerNext, WorkerEnabled;
    }
  }

  /** From every reachable state of a call its threads can bring it to return by themselves. */
  lemma {:induction false} CallCanReturn(s: State) returns (steps: seq<Step>)
    requires Inv(s) && InCall(s) && s.ws != []
    ensures Possible(s, steps) && After(s, steps).main.Idle?
    ensures forall k :: 0 <= k < |steps| ==> Own(steps[k])
    decreases Measure(s)
  {
    var step := OwnMove(s);
    var s' := Next(s, step);
    var rest := [];
    if InCall(s') {
      rest := CallCanReturn(s');
    }
    steps := [step] + rest;
    assert steps[1..] == rest;
  }

  ghost predicate CanReturn(s: State) {
    exists steps :: Possible(s, steps) && After(s, steps).main.Idle?
  }

  lemma {:induction false} EmptyPoolBlocks(s: State, steps: seq<Step>)
    requires s.ws == [] && InCall(s) && s.next < s.nTasks && Possible(s, steps)
    ensures InCall(After(s, steps))
    decreases |steps|
  {
    if steps != [] {
      EmptyPoolBlocks(Next(s, steps[0]), steps[1..]);
    }
  }

  lemma {:induction false} WorkersStay(s: State, steps: seq<Step>)
    requires Possible(s, steps)
    ensures |After(s, steps).ws| == |s.ws|
    decreases |steps|
  {
    if steps != [] {
      WorkersStay(Next(s, steps[0]), steps[1..]);
    }
  }

  /** A call that publishes work can return if and only if the pool has a worker: with none,
      `parallel_for` waits for ever. */
  lemma CallReturnsIffPoolNonempty(nThreads: nat, steps: seq<Step>)
    requires Possible(Init(nThreads), steps) && After(Init(nThreads), steps).main.Publishing?
    ensures CanReturn(DispatcherNext(After(Init(nThreads), steps))) <==> nThreads > 0
  {
    var s := After(Init(nThreads), steps);
    InitInv(nThreads);
    RunKeepsInv(Init(nThreads), steps);
    WorkersStay(Init(nThreads), steps);
    var s' := DispatcherNext(s);
    StepKeepsInv(s, DispatcherStep);
    if nThreads > 0 {
      var rest := CallCanReturn(s');
    } else if rest :| Possible(s', rest) && After(s', rest).main.Idle? {
      EmptyPoolBlocks(s', rest);
    }
  }

  // ---------------------------------------------------------------- two calls at once

  ghost predicate Leads(s: State, s': State) {
    exists steps :: Possible(s, steps) && After(s, steps) == s'
  }

  lemma {:induction false} RunExtends(s: State, steps: seq<Step>, step: Step)
    requires Possible(s, steps) && Enabled(After(s, steps), step)
    ensures Possible(s, steps + [step]) && After(s, steps + [step]) == Next(After(s, steps), step)
    decreases |steps|
  {
    if steps == [] {
      assert Possible(Next(s, step), []);
      assert [step][1..] == [];
    } else {
      RunExtends(Next(s, steps[0]), steps[1..], step);
      assert (steps + [step])[1..] == steps[1..] + [step];
    }
  }

  lemma OneMore(s: State, s': State, step: Step) returns (t: State)
    requires Leads(s, s') && Enabled(s', step)
    ensures t == Next(s', step) && Leads(s, t)
  {
    var steps :| Possible(s, steps) && After(s, steps) == s';
    RunExtends(s, steps, step);
    t := Next(s', step);
  }

  predicate Hands(step: Step, g: FunctionId) {
    step.BeginCall? && step.fn == g
  }

  predicate AboutToPublish(main: DispatcherPc, g: FunctionId) {
    (main.WantPublish? || main.Publishing?) && main.f == g
  }

  /** A callable that has been overwritten is not run again until it is handed out again. */
  lemma {:induction false} Overwritten(s: State, steps: seq<Step>, g: FunctionId)
    requires s.fn != g && !AboutToPublish(s.main, g) && Possible(s, steps)
    requires forall step :: step in steps ==> !Hands(step, g)
    ensures forall r: Run :: r.fn == g ==> After(s, steps).started[r] == s.started[r]
    decreases |steps|
  {
    if steps != [] {
      assert steps[0] in steps && forall step :: step in steps[1..] ==> step in steps;
      OverwrittenStep(s, steps[0], g);
      hide Next, Enabled, AboutToPublish;
      Overwritten(Next(s, steps[0]), steps[1..], g);
    }
  }

  lemma OverwrittenStep(s: State, step: Step, g: FunctionId)
    requires s.fn != g && !AboutToPublish(s.main, g) && Enabled(s, step) && !Hands(step, g)
    ensures Next(s, step).fn != g && !AboutToPublish(Next(s, step).main, g)
    ensures forall r: Run :: r.fn == g ==> Next(s, step).started[r] == s.started[r]
  {
    match step
    case WorkerStep(i) => WorkerLeaves(s, i);
    case DispatcherStep => hide NotifyAll, Done; assert DispatcherNext(s).started == s.started;
    case _ =>
  }

  /** The single dispatcher matters.  A second thread that publishes another callable while a call is in progress
      makes every task of that call that was not claimed, or claimed and not begun, one that no continuation runs,
      unless a later call hands out the same callable again. */
  lemma OverlapLosesUnclaimed(nThreads: nat, before: seq<Step>, n: int, f: FunctionId, steps: seq<Step>, task: int)
    requires Possible(Init(nThreads), before)
    requires var s := After(Init(nThreads), before);
      && InCall(s) && s.lock.Free? && f != s.fn
      && (s.next <= task < s.nTasks || ClaimedBySomeone(s, task))
      && Possible(Publish(s, n, f), steps) && forall step :: step in steps ==> !Hands(step, s.fn)
    ensures var s := After(Init(nThreads), before);
      var r := Run(|s.calls| - 1, task, s.fn);
      Asked(s.calls, r) && r !in After(Publish(s, n, f), steps).started
  {
    InitInv(nThreads);
    RunKeepsInv(Init(nThreads), before);
    var s := After(Init(nThreads), before);
    Unbegun(s, task);
    hide Inv, Possible, After, Asked, ClaimedBySomeone;
    Overwritten(Publish(s, n, f), steps, s.fn);
  }

  lemma Unbegun(s: State, task: int)
    requires Inv(s) && InCall(s) && (s.next <= task < s.nTasks || ClaimedBySomeone(s, task))
    ensures Asked(s.calls, Run(|s.calls| - 1, task, s.fn)) && s.started[Run(|s.calls| - 1, task, s.fn)] == 0
  {
  }

  /** Nothing reports the loss: here the first call returns although none of its tasks was ever run. */
  lemma OverlappingCallLosesTasks()
    ensures exists s, s' ::
      && Leads(Init(1), s) && InCall(s) && s.lock.Free? && s.calls == [Call(2, 7)]
      && Leads(Publish(s, 1, 9), s') && s'.main.Idle? && (forall r :: r in s'.started ==> r.fn != 7)
  {
    hide Leads;
    var i := Init(1);
    var s := FirstCallPublished();
    var o := Publish(s, 1, 9);
    NoSteps(o);
    var t := FirstWorkerServes(o);
    t := OneMore(o, t, DispatcherStep);
    t := OneMore(o, t, DispatcherStep);
    t := OneMore(o, t, DispatcherStep);
  }

  lemma NoSteps(s: State)
    ensures Leads(s, s)
  {
    assert Possible(s, []) && After(s, []) == s;
  }

  lemma FirstCallPublished() returns (s: State)
    ensures Leads(Init(1), s) && s == Publish(Init(1), 2, 7).(main := Announcing)
  {
    var i := Init(1);
    NoSteps(i);
    hide Leads;
    s := OneMore(i, i, BeginCall(2, 7));
    s := OneMore(i, s, DispatcherStep);
    s := OneMore(i, s, DispatcherStep);
  }

  lemma FirstWorkerClaims(o: State) returns (t: State)
    requires o.ws == [WorkerState(Spawned, 0)] && o.lock.Free? && !o.stop && o.next == 0 && o.nTasks == 1
    ensures Leads(o, t)
    ensures t == o.(ws := [WorkerState(Claimed(0), o.gen)], next := 1, active := o.active + 1)
  {
    NoSteps(o);
    hide Leads;
    t := OneMore(o, o, WorkerStep(0));
    t := OneMore(o, t, WorkerStep(0));
    t := OneMore(o, t, WorkerStep(0));
    t := OneMore(o, t, WorkerStep(0));
  }

  /** The only worker wakes up, runs the one task there is, and goes back to the wait. */
  lemma FirstWorkerServes(o: State) returns (t: State)
    requires o.ws == [WorkerState(Spawned, 0)] && o.lock.Free? && !o.stop
    requires o.next == 0 && o.nTasks == 1 && o.active == 0 && o.main.Announcing?
    requires o.started == multiset{}
    ensures Leads(o, t) && t == o.(ws := t.ws, next := 1, started := t.started, finished := t.finished)
    ensures t.started == multiset{Run(o.gen - 1, 0, o.fn)} && |t.ws| == 1 && t.ws[0].pc.Locking?
  {
    hide Leads;
    t := FirstWorkerClaims(o);
    t := OneMore(o, t, WorkerStep(0));
    t := OneMore(o, t, WorkerStep(0));
    t := OneMore(o, t, WorkerStep(0));
    t := OneMore(o, t, WorkerStep(0));
    t := OneMore(o, t, WorkerStep(0));
    t := OneMore(o, t, WorkerStep(0));
  }
}

/** `StdThreadPool::ThreadPool` as a transition system: the mutex, the condition
  * variable with its wait-set and spurious wakeups, notifications issued after
  * the lock is released, submitters in any number, and the destructor. */
module ThreadPool {
  import opened Sums
  import opened Histories

  type Task = int

  datatype Owner = Nobody | WorkerHas(w: nat) | ClientHas(c: nat) | DestructorHas

  /** A worker's place in its endless loop. `Popped` still holds the lock; `n` is
    * the position of its task in the order of acceptance. */
  datatype Worker = Wanting | Checking | Asleep | Holding | Popped(n: nat) | Running(n: nat) | Exited

  /** One call of submitTask. */
  datatype Client = Outside | AtLock(task: Task) | InLock(task: Task) | Pushed | Unlocked

  datatype Destructor = NotCalled | WantsLock | HasLock | StopSet | MustNotify | Joining(next: nat) | Done

  /** `accepted` lists the tasks put into the queue, `submitters` who put each there,
    * `started` the tasks taken out, and `finished` the positions of those that ended. */
  datatype State = State(lock: Owner, queue: seq<Task>, stop: bool,
                         workers: seq<Worker>, clients: seq<Client>, destructor: Destructor,
                         accepted: seq<Task>, submitters: seq<nat>, started: seq<Task>, finished: set<nat>)

  datatype Action =
    | Acquire(w: nat)
    | Sleep(w: nat)
    | Proceed(w: nat)
    | SpuriousWake(w: nat)
    | Leave(w: nat)
    | Pop(w: nat)
    | Unlock(w: nat)
    | Finish(w: nat)
    | Call(c: nat, task: Task)
    | ClientAcquire(c: nat)
    | Throw(c: nat)
    | Emplace(c: nat)
    | ClientUnlock(c: nat)
    | NotifyNone(c: nat)
    | NotifyOne(c: nat, w: nat)
    | Destroy
    | DestructorAcquire
    | SetStop
    | DestructorUnlock
    | NotifyAll
    | Join
    | Return

  predicate IsAt(s: State, w: nat, at: Worker) {
    w < |s.workers| && s.workers[w] == at
  }

  /** The wait predicate. */
  predicate MayProceed(s: State) {
    s.stop || s.queue != []
  }

  predicate Enabled(s: State, a: Action) {
    match a
    case Acquire(w) => IsAt(s, w, Wanting) && s.lock == Nobody
    case Sleep(w) => IsAt(s, w, Checking) && !MayProceed(s)
    case Proceed(w) => IsAt(s, w, Checking) && MayProceed(s)
    case SpuriousWake(w) => IsAt(s, w, Asleep)
    case Leave(w) => IsAt(s, w, Holding) && s.stop && s.queue == []
    case Pop(w) => IsAt(s, w, Holding) && !(s.stop && s.queue == [])
    case Unlock(w) => w < |s.workers| && s.workers[w].Popped?
    case Finish(w) => w < |s.workers| && s.workers[w].Running?
    case Call(c, _) => c < |s.clients| && s.clients[c].Outside?
    case ClientAcquire(c) => c < |s.clients| && s.clients[c].AtLock? && s.lock == Nobody
    case Throw(c) => c < |s.clients| && s.clients[c].InLock? && s.stop
    case Emplace(c) => c < |s.clients| && s.clients[c].InLock? && !s.stop
    case ClientUnlock(c) => c < |s.clients| && s.clients[c].Pushed?
    case NotifyNone(c) => c < |s.clients| && s.clients[c].Unlocked? && Asleep !in s.workers
    case NotifyOne(c, w) => c < |s.clients| && s.clients[c].Unlocked? && IsAt(s, w, Asleep)
    case Destroy => s.destructor.NotCalled?
    case DestructorAcquire => s.destructor.WantsLock? && s.lock == Nobody
    case SetStop => s.destructor.HasLock?
    case DestructorUnlock => s.destructor.StopSet?
    case NotifyAll => s.destructor.MustNotify?
    case Join => s.destructor.Joining? && IsAt(s, s.destructor.next, Exited)
    case Return => s.destructor == Joining(|s.workers|)
  }

  function Wake(w: Worker): Worker {
    if w.Asleep? then Wanting else w
  }

  function WakeAll(ws: seq<Worker>): seq<Worker> {
    seq(|ws|, i requires 0 <= i < |ws| => Wake(ws[i]))
  }

  function Move(s: State, w: nat, at: Worker): State
    requires w < |s.workers|
  {
    s.(workers := s.workers[w := at])
  }

  function MoveClient(s: State, c: nat, at: Client): State
    requires c < |s.clients|
  {
    s.(clients := s.clients[c := at])
  }

  function Step(s: State, a: Action): State
    requires Enabled(s, a)
  {
    match a
    case Acquire(w) => Move(s, w, Checking).(lock := WorkerHas(w))
    case Sleep(w) => Move(s, w, Asleep).(lock := Nobody)
    case Proceed(w) => Move(s, w, Holding)
    case SpuriousWake(w) => Move(s, w, Wanting)
    case Leave(w) => Move(s, w, Exited).(lock := Nobody)
    case Pop(w) =>
      if s.queue == [] then s
      else Move(s, w, Popped(|s.started|)).(queue := s.queue[1..], started := s.started + [s.queue[0]])
    case Unlock(w) => Move(s, w, Running(s.workers[w].n)).(lock := Nobody)
    case Finish(w) => Move(s, w, Wanting).(finished := s.finished + {s.workers[w].n})
    case Call(c, task) => MoveClient(s, c, AtLock(task))
    case ClientAcquire(c) => MoveClient(s, c, InLock(s.clients[c].task)).(lock := ClientHas(c))
    case Throw(c) => MoveClient(s, c, Outside).(lock := Nobody)
    case Emplace(c) =>
      var task := s.clients[c].task;
      MoveClient(s, c, Pushed).(queue := s.queue + [task], accepted := s.accepted + [task], submitters := s.submitters + [c])
    case ClientUnlock(c) => MoveClient(s, c, Unlocked).(lock := Nobody)
    case NotifyNone(c) => MoveClient(s, c, Outside)
    case NotifyOne(c, w) => Move(MoveClient(s, c, Outside), w, Wanting)
    case Destroy => s.(destructor := WantsLock)
    case DestructorAcquire => s.(destructor := HasLock, lock := DestructorHas)
    case SetStop => s.(destructor := StopSet, stop := true)
    case DestructorUnlock => s.(destructor := MustNotify, lock := Nobody)
    case NotifyAll => s.(destructor := Joining(0), workers := WakeAll(s.workers))
    case Join => s.(destructor := Joining(s.destructor.next + 1))
    case Return => s.(destructor := Done)
  }

  /** n worker threads and m threads that may call submitTask. */
  function Init(n: nat, m: nat): State {
    State(Nobody, [], false, seq(n, _ => Wanting), seq(m, _ => Outside), NotCalled, [], [], [], {})
  }

  type Run = seq<Action>

  predicate CanRun(s: State, r: Run)
    decreases |r|
  {
    |r| == 0 || (Enabled(s, r[0]) && CanRun(Step(s, r[0]), r[1..]))
  }

  function Exec(s: State, r: Run): State
    requires CanRun(s, r)
    decreases |r|
  {
    if |r| == 0 then s else Exec(Step(s, r[0]), r[1..])
  }

  // ---------------------------------------------------------------- invariants

  predicate WorkerInside(w: Worker) {
    w.Checking? || w.Holding? || w.Popped?
  }

  predicate ClientInside(c: Client) {
    c.InLock? || c.Pushed?
  }

  /** The lock belongs to exactly the thread that is inside it. */
  ghost predicate Mutex(s: State) {
    && (forall w :: 0 <= w < |s.workers| ==> (WorkerInside(s.workers[w]) <==> s.lock == WorkerHas(w)))
    && (forall c :: 0 <= c < |s.clients| ==> (ClientInside(s.clients[c]) <==> s.lock == ClientHas(c)))
    && (s.destructor.HasLock? || s.destructor.StopSet? <==> s.lock == DestructorHas)
    && (s.lock.WorkerHas? ==> s.lock.w < |s.workers|)
    && (s.lock.ClientHas? ==> s.lock.c < |s.clients|)
  }

  function IsAsleep(w: Worker): nat { if w.Asleep? then 1 else 0 }
  /** Awake, and not yet committed to a task. */
  function IsLooking(w: Worker): nat { if w.Wanting? || w.Checking? || w.Holding? then 1 else 0 }
  function OwesNotify(c: Client): nat { if c.Pushed? || c.Unlocked? then 1 else 0 }

  /** No stranded task: somebody asleep means that the notifications still owed
    * and the workers still looking for work suffice for the whole queue. */
  ghost predicate NoneStranded(s: State) {
    Sum(s.workers, IsAsleep) > 0 ==> Sum(s.clients, OwesNotify) + Sum(s.workers, IsLooking) >= |s.queue|
  }

  predicate StopIsSet(d: Destructor) {
    d.StopSet? || d.MustNotify? || d.Joining? || d.Done?
  }

  /** `stop` is the destructor's doing, and once it has notified nobody sleeps. */
  ghost predicate Stopping(s: State) {
    && (s.stop <==> StopIsSet(s.destructor))
    && (s.destructor.Joining? || s.destructor.Done? ==> Asleep !in s.workers)
    && (Exited in s.workers ==> s.stop && s.queue == [])
    && (forall w :: 0 <= w < |s.workers| && s.workers[w].Holding? ==> MayProceed(s))
    && (s.destructor.Joining? ==> s.destructor.next <= |s.workers| && FirstExited(s, s.destructor.next))
    && (s.destructor.Done? ==> FirstExited(s, |s.workers|))
  }

  ghost predicate FirstExited(s: State, k: nat) {
    forall w :: 0 <= w < k && w < |s.workers| ==> s.workers[w].Exited?
  }

  predicate HasTask(w: Worker, n: nat) {
    (w.Popped? || w.Running?) && w.n == n
  }

  /** Every dequeued task is finished or in the hands of exactly one worker. */
  ghost predicate OneRunner(s: State) {
    && (forall n :: n in s.finished ==> n < |s.started|)
    && (forall w :: 0 <= w < |s.workers| && (s.workers[w].Popped? || s.workers[w].Running?) ==>
          s.workers[w].n < |s.started| && s.workers[w].n !in s.finished)
    && (forall v, w :: 0 <= v < w < |s.workers| && (s.workers[v].Popped? || s.workers[v].Running?) ==>
          !HasTask(s.workers[w], s.workers[v].n))
    && (forall n: nat :: n < |s.started| ==> Accounted(s, n))
  }

  ghost predicate Accounted(s: State, n: nat) {
    n in s.finished || exists w :: 0 <= w < |s.workers| && HasTask(s.workers[w], n)
  }

  ghost predicate Inv(s: State) {
    && Mutex(s) && NoneStranded(s) && Stopping(s) && OneRunner(s)
    && s.accepted == s.started + s.queue
  }

  lemma InitInv(n: nat, m: nat)
    ensures Inv(Init(n, m))
  {
    SumAll(Init(n, m).workers, IsAsleep, 0);
  }

  // ------------------------------------------------------------ what steps keep

  predicate ByWorker(a: Action) {
    a.Acquire? || a.Sleep? || a.Proceed? || a.SpuriousWake? || a.Leave? || a.Pop? || a.Unlock? || a.Finish?
  }

  predicate ByClient(a: Action) {
    a.Call? || a.ClientAcquire? || a.Throw? || a.Emplace? || a.ClientUnlock? || a.NotifyNone? || a.NotifyOne?
  }

  lemma WorkerMutex(s: State, a: Action)
    requires Mutex(s) && Enabled(s, a) && ByWorker(a)
    ensures Mutex(Step(s, a))
  {
  }

  lemma ClientLocks(s: State, a: Action)
    requires Mutex(s) && Enabled(s, a) && (a.Call? || a.ClientAcquire? || a.Emplace?)
    ensures Mutex(Step(s, a))
  {
  }

  lemma ClientUnlocks(s: State, a: Action)
    requires Mutex(s) && Enabled(s, a) && (a.Throw? || a.ClientUnlock?)
    ensures Mutex(Step(s, a))
  {
  }

  lemma ClientNotifies(s: State, a: Action)
    requires Mutex(s) && Enabled(s, a) && (a.NotifyNone? || a.NotifyOne?)
    ensures Mutex(Step(s, a))
  {
  }

  lemma ClientMutex(s: State, a: Action)
    requires Mutex(s) && Enabled(s, a) && ByClient(a)
    ensures Mutex(Step(s, a))
  {
    hide Mutex, Enabled, Step;
    if a.Throw? || a.ClientUnlock? {
      ClientUnlocks(s, a);
    } else if a.NotifyNone? || a.NotifyOne? {
      ClientNotifies(s, a);
    } else {
      ClientLocks(s, a);
    }
  }

  lemma DestructorMutex(s: State, a: Action)
    requires Mutex(s) && Enabled(s, a) && !ByWorker(a) && !ByClient(a)
    ensures Mutex(Step(s, a))
  {
  }

  lemma MutexKept(s: State, a: Action)
    requires Mutex(s) && Enabled(s, a)
    ensures Mutex(Step(s, a))
  {
    hide *;
    if ByWorker(a) {
      WorkerMutex(s, a);
    } else if ByClient(a) {
      ClientMutex(s, a);
    } else {
      DestructorMutex(s, a);
    }
  }

  lemma WorkerStopping(s: State, a: Action)
    requires Mutex(s) && Stopping(s) && Enabled(s, a) && ByWorker(a)
    ensures Stopping(Step(s, a))
  {
  }

  lemma ClientStopping(s: State, a: Action)
    requires Mutex(s) && Stopping(s) && Enabled(s, a) && ByClient(a)
    ensures Stopping(Step(s, a))
  {
  }

  lemma DestructorStopping(s: State, a: Action)
    requires Mutex(s) && Stopping(s) && Enabled(s, a) && !ByWorker(a) && !ByClient(a)
    ensures Stopping(Step(s, a))
  {
  }

  lemma StoppingKept(s: State, a: Action)
    requires Mutex(s) && Stopping(s) && Enabled(s, a)
    ensures Stopping(Step(s, a))
  {
    hide *;
    if ByWorker(a) {
      WorkerStopping(s, a);
    } else if ByClient(a) {
      ClientStopping(s, a);
    } else {
      DestructorStopping(s, a);
    }
  }

  lemma MoveSums(ws: seq<Worker>, w: nat, at: Worker)
    requires w < |ws|
    ensures Sum(ws[w := at], IsAsleep) + IsAsleep(ws[w]) == Sum(ws, IsAsleep) + IsAsleep(at)
    ensures Sum(ws[w := at], IsLooking) + IsLooking(ws[w]) == Sum(ws, IsLooking) + IsLooking(at)
  {
    SumUpdate(ws, IsAsleep, w, at);
    SumUpdate(ws, IsLooking, w, at);
  }

  lemma NobodyAsleep(ws: seq<Worker>)
    requires Asleep !in ws
    ensures Sum(ws, IsAsleep) == 0
  {
    if Sum(ws, IsAsleep) > 0 {
      var i := SumWitness(ws, IsAsleep);
    }
  }

  lemma WorkerStepStrands(s: State, w: nat, at: Worker, queue: seq<Task>)
    requires NoneStranded(s) && w < |s.workers|
    requires IsAsleep(at) <= IsAsleep(s.workers[w])
    requires |queue| + IsLooking(s.workers[w]) <= |s.queue| + IsLooking(at)
    ensures Sum(s.workers[w := at], IsAsleep) > 0 ==>
      Sum(s.clients, OwesNotify) + Sum(s.workers[w := at], IsLooking) >= |queue|
  {
    MoveSums(s.workers, w, at);
  }

  lemma ClientStepStrands(s: State, c: nat, at: Client, queue: seq<Task>)
    requires NoneStranded(s) && c < |s.clients|
    requires |queue| + OwesNotify(s.clients[c]) <= |s.queue| + OwesNotify(at)
    ensures Sum(s.workers, IsAsleep) > 0 ==>
      Sum(s.clients[c := at], OwesNotify) + Sum(s.workers, IsLooking) >= |queue|
  {
    SumUpdate(s.clients, OwesNotify, c, at);
  }

  lemma NotifyStrands(s: State, a: Action)
    requires NoneStranded(s) && Enabled(s, a) && (a.NotifyNone? || a.NotifyOne? || a.NotifyAll?)
    ensures NoneStranded(Step(s, a))
  {
    match a {
      case NotifyNone(_) => NobodyAsleep(s.workers);
      case NotifyOne(c, w) =>
        SumUpdate(s.clients, OwesNotify, c, Outside);
        MoveSums(s.workers, w, Wanting);
      case NotifyAll => NobodyAsleep(WakeAll(s.workers));
      case _ =>
    }
  }

  lemma NoneStrandedKept(s: State, a: Action)
    requires Mutex(s) && Stopping(s) && NoneStranded(s) && Enabled(s, a)
    ensures NoneStranded(Step(s, a))
  {
    var t := Step(s, a);
    if a.NotifyNone? || a.NotifyOne? || a.NotifyAll? {
      NotifyStrands(s, a);
    } else {
      hide Mutex, Sum;
      if ByWorker(a) && !a.Sleep? && !a.Leave? {
        WorkerStepStrands(s, a.w, t.workers[a.w], t.queue);
      } else if ByClient(a) {
        ClientStepStrands(s, a.c, t.clients[a.c], t.queue);
      }
    }
  }

  /** Workers keep their tasks, and nothing is started or finished. */
  lemma RunnersFrame(s: State, t: State)
    requires OneRunner(s) && t.finished == s.finished && t.started == s.started && |t.workers| == |s.workers|
    requires forall w :: 0 <= w < |s.workers| ==> t.workers[w] == s.workers[w] || (Idle(s.workers[w]) && Idle(t.workers[w]))
    ensures OneRunner(t)
  {
    forall n: nat | n < |t.started| ensures Accounted(t, n) {
      assert Accounted(s, n);
      if w :| 0 <= w < |s.workers| && HasTask(s.workers[w], n) { assert HasTask(t.workers[w], n); }
    }
  }

  predicate Idle(w: Worker) {
    !w.Popped? && !w.Running?
  }

  lemma PopRunners(s: State, w: nat)
    requires OneRunner(s) && Enabled(s, Pop(w)) && s.queue != []
    ensures OneRunner(Step(s, Pop(w)))
  {
    var t := Step(s, Pop(w));
    assert HasTask(t.workers[w], |s.started|);
    forall n: nat | n < |t.started| ensures Accounted(t, n) {
      if n < |s.started| {
        assert Accounted(s, n);
        if v :| 0 <= v < |s.workers| && HasTask(s.workers[v], n) { assert HasTask(t.workers[v], n); }
      }
    }
  }

  lemma UnlockRunners(s: State, w: nat)
    requires OneRunner(s) && Enabled(s, Unlock(w))
    ensures OneRunner(Step(s, Unlock(w)))
  {
    var t := Step(s, Unlock(w));
    forall n: nat | n < |t.started| ensures Accounted(t, n) {
      assert Accounted(s, n);
      if v :| 0 <= v < |s.workers| && HasTask(s.workers[v], n) { assert HasTask(t.workers[v], n); }
    }
  }

  lemma FinishRunners(s: State, w: nat)
    requires OneRunner(s) && Enabled(s, Finish(w))
    ensures OneRunner(Step(s, Finish(w)))
    ensures s.workers[w].n !in s.finished
  {
    var t := Step(s, Finish(w));
    forall n: nat | n < |t.started| ensures Accounted(t, n) {
      assert Accounted(s, n);
      if v :| 0 <= v < |s.workers| && HasTask(s.workers[v], n) { assert v == w || HasTask(t.workers[v], n); }
    }
  }

  lemma WorkerRunners(s: State, a: Action)
    requires OneRunner(s) && Enabled(s, a) && ByWorker(a) && !a.Pop? && !a.Unlock? && !a.Finish?
    ensures OneRunner(Step(s, a))
  {
    hide OneRunner;
    RunnersFrame(s, Step(s, a));
  }

  lemma OtherRunners(s: State, a: Action)
    requires OneRunner(s) && Enabled(s, a) && !ByWorker(a)
    ensures OneRunner(Step(s, a))
  {
    hide OneRunner;
    RunnersFrame(s, Step(s, a));
  }

  lemma OneRunnerKept(s: State, a: Action)
    requires Stopping(s) && OneRunner(s) && Enabled(s, a)
    ensures OneRunner(Step(s, a))
  {
    hide OneRunner, Step;
    if a.Pop? {
      PopRunners(s, a.w);
    } else if a.Unlock? {
      UnlockRunners(s, a.w);
    } else if a.Finish? {
      FinishRunners(s, a.w);
    } else if ByWorker(a) {
      WorkerRunners(s, a);
    } else {
      OtherRunners(s, a);
    }
  }

  lemma StepKeeps(s: State, a: Action)
    requires Inv(s) && Enabled(s, a)
    ensures Inv(Step(s, a))
  {
    MutexKept(s, a);
    StoppingKept(s, a);
    NoneStrandedKept(s, a);
    OneRunnerKept(s, a);
    LogKept(s, a);
    hide Mutex, Stopping, NoneStranded, OneRunner, Step, Enabled;
  }

  lemma LogKept(s: State, a: Action)
    requires s.accepted == s.started + s.queue && Enabled(s, a)
    ensures Step(s, a).accepted == Step(s, a).started + Step(s, a).queue
  {
  }

  lemma {:induction false} RunKeeps(s: State, r: Run)
    requires Inv(s) && CanRun(s, r)
    ensures Inv(Exec(s, r))
    decreases |r|
  {
    hide Inv, Enabled, Step;
    if |r| > 0 {
      StepKeeps(s, r[0]);
      RunKeeps(Step(s, r[0]), r[1..]);
    }
  }

  /** In every reachable state, for any number of workers and submitters: either
    * nobody sleeps, or notifications owed plus workers looking cover the queue. */
  lemma PoolNeverStrands(n: nat, m: nat, r: Run)
    requires CanRun(Init(n, m), r)
    ensures var t := Exec(Init(n, m), r);
      Asleep !in t.workers || Sum(t.clients, OwesNotify) + Sum(t.workers, IsLooking) >= |t.queue|
  {
    InitInv(n, m);
    RunKeeps(Init(n, m), r);
    var t := Exec(Init(n, m), r);
    if Asleep in t.workers {
      var i :| 0 <= i < |t.workers| && t.workers[i] == Asleep;
      SumAtLeast(t.workers, IsAsleep, i);
    }
  }

  // -------------------------------------------------------- acceptance and order

  /** Nothing is accepted once stop is set; what is accepted is only appended to,
    * and tasks are dequeued one at a time in the order of acceptance. */
  lemma OrderOfService(s: State, a: Action)
    requires Inv(s) && Enabled(s, a)
    ensures s.stop ==> Step(s, a).stop && Step(s, a).accepted == s.accepted
    ensures s.accepted <= Step(s, a).accepted && s.started <= Step(s, a).started <= Step(s, a).accepted
    ensures |Step(s, a).started| <= |s.started| + 1
    ensures a.Pop? ==> s.queue != [] && Step(s, a).started == s.started + [s.queue[0]]
  {
    LogKept(s, a);
    if a.Pop? { PopFinds(s, a.w); }
    hide Mutex, NoneStranded, OneRunner, Stopping;
  }

  /** A worker that goes on to pop finds a task. */
  lemma PopFinds(s: State, w: nat)
    requires Stopping(s) && Enabled(s, Pop(w))
    ensures s.queue != []
  {
  }

  /** A finished task had not finished before, and nobody else was running it. */
  lemma RunsOnce(s: State, w: nat)
    requires Inv(s) && Enabled(s, Finish(w))
    ensures s.workers[w].n !in s.finished
    ensures forall v :: 0 <= v < |s.workers| && v != w ==> !HasTask(s.workers[v], s.workers[w].n)
  {
    hide NoneStranded, Stopping, Mutex;
    forall v | 0 <= v < |s.workers| && v != w ensures !HasTask(s.workers[v], s.workers[w].n) {
      if v < w { assert HasTask(s.workers[w], s.workers[w].n); }
    }
  }

  // --------------------------------------------------------- what callers submit

  /** The task of a call that has not been answered. */
  function InHand(c: Client): seq<Task> {
    if c.AtLock? || c.InLock? then [c.task] else []
  }

  /** What client c has had accepted or is still offering, in the order of its calls. */
  function Output(s: State, c: nat): seq<Task>
    requires |s.submitters| == |s.accepted|
  {
    Of(s.accepted, s.submitters, c) + if c < |s.clients| then InHand(s.clients[c]) else []
  }

  /** The arguments of client c's calls after those in `before`, less those of the
    * calls that threw. */
  function Given(r: Run, c: nat, before: seq<Task>): seq<Task> {
    if |r| == 0 then before else Given(r[1..], c, GivenNext(r[0], c, before))
  }

  function GivenNext(a: Action, c: nat, before: seq<Task>): seq<Task> {
    match a
    case Call(d, task) => if d == c then before + [task] else before
    case Throw(d) => if d == c && |before| > 0 then before[..|before| - 1] else before
    case _ => before
  }

  lemma EmplaceOutput(s: State, a: Action, c: nat)
    requires |s.submitters| == |s.accepted| && Enabled(s, a) && a.Emplace?
    ensures var t := Step(s, a); |t.submitters| == |t.accepted| && Output(t, c) == Output(s, c)
  {
    hide Of;
    OfAppend(s.accepted, s.submitters, s.clients[a.c].task, a.c, c);
  }

  lemma OutputStep(s: State, a: Action, c: nat)
    requires |s.submitters| == |s.accepted| && Enabled(s, a)
    ensures var t := Step(s, a); |t.submitters| == |t.accepted| && Output(t, c) == GivenNext(a, c, Output(s, c))
  {
    hide Of;
    if a.Emplace? { EmplaceOutput(s, a, c); }
  }

  /** In any run: what a client has had accepted, and the task in its hand, are the
    * arguments of its calls that did not throw, in order. */
  lemma {:induction false} AcceptedIsGiven(s: State, r: Run, c: nat)
    requires |s.submitters| == |s.accepted| && CanRun(s, r)
    ensures var t := Exec(s, r); |t.submitters| == |t.accepted| && Output(t, c) == Given(r, c, Output(s, c))
    decreases |r|
  {
    hide Enabled, Step, Output, GivenNext;
    if |r| > 0 {
      OutputStep(s, r[0], c);
      AcceptedIsGiven(Step(s, r[0]), r[1..], c);
    }
  }

  /** A call throws only after the destructor has set stop, and only before that is its
    * task accepted. */
  lemma {:induction false} ThrowsAfterStop(s: State, r: Run, k: nat)
    requires CanRun(s, r) && k < |r|
    ensures r[k].Throw? ==> s.stop || exists j :: 0 <= j < k && r[j].SetStop?
    ensures r[k].Emplace? ==> !s.stop && forall j :: 0 <= j < k ==> !r[j].SetStop?
    ensures Exec(s, r).stop <==> s.stop || exists j :: 0 <= j < |r| && r[j].SetStop?
    decreases |r|
  {
    var t := Step(s, r[0]);
    assert t.stop <==> s.stop || r[0].SetStop?;
    assert r[0].Throw? ==> s.stop;
    assert r[0].Emplace? ==> !s.stop;
    hide Step, Enabled;
    if |r| > 1 {
      ThrowsAfterStop(t, r[1..], if k > 0 then k - 1 else 0);
    } else {
      assert Exec(t, r[1..]) == t;
    }
    assert forall j :: 0 < j < |r| ==> r[j] == r[1..][j - 1];
    assert forall j :: 0 <= j < |r| - 1 ==> r[1..][j] == r[j + 1];
  }

  /** The tasks passed to submitTask in a run, and those passed by client c. */
  function Calls(r: Run): seq<Task> {
    if |r| == 0 then [] else (match r[0] case Call(_, task) => [task] case _ => []) + Calls(r[1..])
  }

  function CallsOf(r: Run, c: nat): seq<Task> {
    if |r| == 0 then []
    else (match r[0] case Call(d, task) => if d == c then [task] else [] case _ => []) + CallsOf(r[1..], c)
  }

  predicate NoThrow(r: Run) {
    forall k :: 0 <= k < |r| ==> !r[k].Throw?
  }

  lemma {:induction false} GivenWithoutThrow(r: Run, c: nat, before: seq<Task>)
    requires NoThrow(r)
    ensures Given(r, c, before) == before + CallsOf(r, c)
  {
    if |r| > 0 { GivenWithoutThrow(r[1..], c, GivenNext(r[0], c, before)); }
  }

  /** The task of an unanswered call, as a bag. */
  function HandBag(c: Client): multiset<Task> {
    Bag(InHand(c))
  }

  /** The values a step brings in, and what it moves from a hand into the queue. */
  function Brought(a: Action): multiset<Task> {
    match a
    case Call(_, task) => multiset{task}
    case _ => multiset{}
  }

  function Queued(s: State, a: Action): seq<Task>
    requires Enabled(s, a)
  {
    match a
    case Emplace(c) => [s.clients[c].task]
    case _ => []
  }

  /** A call's task passes from the caller's hand into the queue. */
  lemma HandMoves(s: State, a: Action)
    requires Enabled(s, a) && !a.Throw? && ByClient(a)
    ensures var t := Step(s, a);
      && a.c < |s.clients| == |t.clients| && t.clients == s.clients[a.c := t.clients[a.c]]
      && t.accepted == s.accepted + Queued(s, a)
      && InHand(s.clients[a.c]) + (if a.Call? then [a.task] else []) == InHand(t.clients[a.c]) + Queued(s, a)
  {
  }

  lemma ClientHand(s: State, a: Action)
    requires Enabled(s, a) && !a.Throw? && ByClient(a)
    ensures var t := Step(s, a);
      && a.c < |s.clients| == |t.clients| && t.clients == s.clients[a.c := t.clients[a.c]]
      && t.accepted == s.accepted + Queued(s, a)
      && HandBag(t.clients[a.c]) + Bag(Queued(s, a)) == HandBag(s.clients[a.c]) + Brought(a)
  {
    HandMoves(s, a);
    hide Step, Enabled, InHand, Queued;
    BagSplit(InHand(s.clients[a.c]), if a.Call? then [a.task] else []);
    BagSplit(InHand(Step(s, a).clients[a.c]), Queued(s, a));
  }

  lemma OtherHands(s: State, a: Action)
    requires Enabled(s, a) && !ByClient(a)
    ensures Step(s, a).clients == s.clients && Step(s, a).accepted == s.accepted && Brought(a) == multiset{}
  {
  }

  lemma SubmittedStep(s: State, a: Action)
    requires Enabled(s, a) && !a.Throw?
    ensures var t := Step(s, a);
      Bag(t.accepted) + Gather(t.clients, HandBag) == Bag(s.accepted) + Gather(s.clients, HandBag) + Brought(a)
  {
    hide Step, Enabled, Gather, HandBag, Bag, Queued, Brought;
    var t := Step(s, a);
    if ByClient(a) {
      ClientHand(s, a);
      var others := GatherChange(s.clients, HandBag, HandBag, a.c, t.clients[a.c]);
      BagSplit(s.accepted, Queued(s, a));
      Rebalance(Bag(s.accepted), Bag(Queued(s, a)), others, HandBag(t.clients[a.c]), HandBag(s.clients[a.c]), Brought(a));
    } else {
      OtherHands(s, a);
    }
  }

  lemma Rebalance(all: multiset<Task>, out: multiset<Task>, rest: multiset<Task>, own': multiset<Task>, own: multiset<Task>, brought: multiset<Task>)
    requires own' + out == own + brought
    ensures (all + out) + (rest + own') == all + (rest + own) + brought
  {
    forall v: Task ensures ((all + out) + (rest + own'))[v] == (all + (rest + own) + brought)[v] {
      assert (own' + out)[v] == (own + brought)[v];
    }
  }

  lemma BagSplit(xs: seq<Task>, ys: seq<Task>)
    ensures Bag(xs + ys) == Bag(xs) + Bag(ys)
  {
  }

  lemma CallsFirst(r: Run)
    requires |r| > 0
    ensures Bag(Calls(r)) == Brought(r[0]) + Bag(Calls(r[1..]))
  {
  }

  /** As long as no call throws: the tasks accepted and those in the callers' hands are,
    * as a bag, all that were passed to submitTask. */
  lemma {:induction false} SubmittedIsAccepted(s: State, r: Run)
    requires CanRun(s, r) && NoThrow(r)
    ensures var t := Exec(s, r);
      Bag(t.accepted) + Gather(t.clients, HandBag) == Bag(s.accepted) + Gather(s.clients, HandBag) + Bag(Calls(r))
    decreases |r|
  {
    hide Step, Enabled, Gather, HandBag, Brought, Bag, Calls;
    if |r| > 0 {
      SubmittedStep(s, r[0]);
      SubmittedIsAccepted(Step(s, r[0]), r[1..]);
      CallsFirst(r);
    } else {
      NoCallsMade();
    }
  }

  lemma NoCallsMade()
    ensures Bag(Calls([])) == multiset{}
  {
  }

  // ------------------------------------------------------------------- progress

  /** A step of the pool itself: not a new call, nor the start of destruction, nor
    * a wakeup for no reason. */
  predicate Own(a: Action) {
    !a.Call? && !a.Destroy? && !a.SpuriousWake?
  }

  lemma LockHolderMoves(s: State) returns (a: Action)
    requires Mutex(s) && s.lock != Nobody
    ensures Enabled(s, a) && Own(a)
  {
    match s.lock {
      case WorkerHas(w) =>
        assert WorkerInside(s.workers[w]);
        a := match s.workers[w]
          case Checking => if MayProceed(s) then Proceed(w) else Sleep(w)
          case Holding => if s.stop && s.queue == [] then Leave(w) else Pop(w)
          case _ => Unlock(w);
      case ClientHas(c) =>
        assert ClientInside(s.clients[c]);
        a := if s.clients[c].Pushed? then ClientUnlock(c) else if s.stop then Throw(c) else Emplace(c);
      case DestructorHas =>
        a := if s.destructor.HasLock? then SetStop else DestructorUnlock;
      case Nobody =>
    }
  }

  /** With the lock free, some worker or client can move unless all workers sleep
    * or are gone and no call is under way. */
  lemma FreeLockMoves(s: State) returns (moves: bool, a: Action)
    requires Mutex(s) && s.lock == Nobody
    ensures moves ==> Enabled(s, a) && Own(a)
    ensures !moves ==> (forall w :: 0 <= w < |s.workers| ==> s.workers[w].Asleep? || s.workers[w].Exited?)
    ensures !moves ==> (forall c :: 0 <= c < |s.clients| ==> s.clients[c].Outside?)
  {
    moves, a := true, Return;
    if w :| 0 <= w < |s.workers| && s.workers[w].Wanting? {
      a := Acquire(w);
    } else if w :| 0 <= w < |s.workers| && s.workers[w].Running? {
      a := Finish(w);
    } else if c :| 0 <= c < |s.clients| && s.clients[c].AtLock? {
      a := ClientAcquire(c);
    } else if c :| 0 <= c < |s.clients| && s.clients[c].Unlocked? {
      if w :| 0 <= w < |s.workers| && s.workers[w].Asleep? {
        a := NotifyOne(c, w);
      } else {
        a := NotifyNone(c);
      }
    } else {
      moves := false;
      forall w | 0 <= w < |s.workers| ensures !WorkerInside(s.workers[w]) {}
      forall c | 0 <= c < |s.clients| ensures !ClientInside(s.clients[c]) {}
    }
  }

  /** A worker is held up by nothing but sleep and the lock, and goes to sleep exactly
    * if every accepted task has been taken and shutdown has not begun. */
  lemma WhenWorkersWait(s: State, w: nat)
    requires Inv(s) && w < |s.workers|
    ensures (forall a :: Own(a) && ByWorker(a) && a.w == w ==> !Enabled(s, a)) <==>
      s.workers[w].Asleep? || s.workers[w].Exited? || (s.workers[w].Wanting? && s.lock != Nobody)
    ensures Enabled(s, Sleep(w)) <==> s.workers[w].Checking? && s.started == s.accepted && !s.stop
    ensures Enabled(s, Leave(w)) <==> s.workers[w].Holding? && s.started == s.accepted && s.stop
  {
    hide Mutex, NoneStranded, OneRunner, Stopping;
    assert s.started == s.accepted <==> s.queue == [];
    var a := match s.workers[w]
      case Wanting => Acquire(w)
      case Checking => if MayProceed(s) then Proceed(w) else Sleep(w)
      case Holding => if s.stop && s.queue == [] then Leave(w) else Pop(w)
      case Popped(_) => Unlock(w)
      case _ => Finish(w);
    assert Own(a) && ByWorker(a) && a.w == w;
  }

  /** A call of submitTask is held up by nothing but the lock. */
  lemma WhenCallersWait(s: State, c: nat)
    requires Inv(s) && c < |s.clients|
    ensures (forall a :: Own(a) && ByClient(a) && a.c == c ==> !Enabled(s, a)) <==>
      s.clients[c].Outside? || (s.clients[c].AtLock? && s.lock != Nobody)
    ensures s.clients[c].Outside? ==> forall task :: Enabled(s, Call(c, task))
  {
    hide Mutex, Stopping, NoneStranded, OneRunner;
    var a := match s.clients[c]
      case AtLock(_) => ClientAcquire(c)
      case InLock(_) => if s.stop then Throw(c) else Emplace(c)
      case Pushed => ClientUnlock(c)
      case _ => NotifyNone(c);
    assert Own(a) && ByClient(a) && a.c == c;
    if s.clients[c].Unlocked? && Asleep in s.workers {
      var w :| 0 <= w < |s.workers| && s.workers[w] == Asleep;
      assert Enabled(s, NotifyOne(c, w));
    }
  }

  /** The destructor is held up by nothing but the lock and workers that have not left. */
  lemma WhenDestructorWaits(s: State)
    requires Inv(s)
    ensures (forall a :: Own(a) && !ByWorker(a) && !ByClient(a) ==> !Enabled(s, a)) <==>
      s.destructor.NotCalled? || s.destructor.Done? || (s.destructor.WantsLock? && s.lock != Nobody) ||
      (s.destructor.Joining? && s.destructor.next < |s.workers| && !s.workers[s.destructor.next].Exited?)
    ensures s.destructor.NotCalled? ==> Enabled(s, Destroy)
  {
    hide Mutex, NoneStranded, OneRunner;
    var d := match s.destructor
      case WantsLock => DestructorAcquire
      case HasLock => SetStop
      case StopSet => DestructorUnlock
      case MustNotify => NotifyAll
      case _ => if s.destructor == Joining(|s.workers|) then Return else Join;
    assert Own(d) && !ByWorker(d) && !ByClient(d);
  }

  /** A queued task never waits on an idle pool: from every reachable state with
    * a non-empty queue, or on the way to shutdown, some own step is possible. */
  lemma AlwaysProgress(s: State) returns (a: Action)
    requires Inv(s) && |s.workers| > 0
    requires s.queue != [] || s.destructor.WantsLock? || (s.stop && !s.destructor.Done?)
    ensures Enabled(s, a) && Own(a)
  {
    if s.lock != Nobody {
      a := LockHolderMoves(s);
    } else {
      var moves, b := FreeLockMoves(s);
      a := b;
      if !moves {
        if s.destructor.WantsLock? {
          a := DestructorAcquire;
        } else if s.stop {
          a := DestructorMoves(s);
        } else {
          AllAsleepMeansEmpty(s);
        }
      }
    }
  }

  lemma DestructorMoves(s: State) returns (a: Action)
    requires Mutex(s) && Stopping(s) && s.lock == Nobody && s.stop && !s.destructor.Done?
    requires forall w :: 0 <= w < |s.workers| ==> s.workers[w].Asleep? || s.workers[w].Exited?
    ensures Enabled(s, a) && Own(a)
  {
    a := if s.destructor.MustNotify? then NotifyAll
         else if s.destructor == Joining(|s.workers|) then Return
         else Join;
    assert s.destructor.Joining? && s.destructor.next < |s.workers| ==> s.workers[s.destructor.next] in s.workers;
  }

  lemma AllAsleepMeansEmpty(s: State)
    requires NoneStranded(s) && Stopping(s) && !s.stop && |s.workers| > 0
    requires forall w :: 0 <= w < |s.workers| ==> s.workers[w].Asleep? || s.workers[w].Exited?
    requires forall c :: 0 <= c < |s.clients| ==> s.clients[c].Outside?
    ensures s.queue == []
  {
    SumAll(s.clients, OwesNotify, 0);
    SumAll(s.workers, IsLooking, 0);
    SumAtLeast(s.workers, IsAsleep, 0);
    assert s.workers[0] in s.workers;
  }

  // -------------------------------------------------------- ordinary operation

  function WorkerBusy(w: Worker): nat {
    match w
    case Popped(_) => 5
    case Running(_) => 4
    case Wanting => 3
    case Checking => 2
    case Holding => 1
    case _ => 0
  }

  function ClientBusy(c: Client): nat {
    match c
    case Outside => 0
    case AtLock(_) => 12
    case InLock(_) => 11
    case Pushed => 5
    case Unlocked => 4
  }

  /** The own steps left while nobody calls and nobody destroys the pool. */
  function Busy(s: State): nat {
    Sum(s.workers, WorkerBusy) + 5 * |s.queue| + Sum(s.clients, ClientBusy)
  }

  lemma WorkerStepSettles(s: State, a: Action)
    requires Stopping(s) && s.destructor.NotCalled? && Enabled(s, a) && ByWorker(a) && Own(a)
    ensures Busy(Step(s, a)) < Busy(s) && Step(s, a).destructor.NotCalled?
  {
    if a.Pop? { PopFinds(s, a.w); }
    SumUpdate(s.workers, WorkerBusy, a.w, Step(s, a).workers[a.w]);
    hide Sum, Stopping;
  }

  lemma ClientStepSettles(s: State, a: Action)
    requires Stopping(s) && s.destructor.NotCalled? && Enabled(s, a) && ByClient(a) && Own(a)
    ensures Busy(Step(s, a)) < Busy(s) && Step(s, a).destructor.NotCalled?
  {
    SumUpdate(s.clients, ClientBusy, a.c, Step(s, a).clients[a.c]);
    if a.NotifyOne? { SumUpdate(s.workers, WorkerBusy, a.w, Wanting); }
    hide Sum;
  }

  lemma OwnStepSettles(s: State, a: Action)
    requires Stopping(s) && s.destructor.NotCalled? && Enabled(s, a) && Own(a)
    ensures Busy(Step(s, a)) < Busy(s) && Step(s, a).destructor.NotCalled?
  {
    OwnKinds(s, a);
    hide *;
    if ByWorker(a) { WorkerStepSettles(s, a); } else { ClientStepSettles(s, a); }
  }

  lemma OwnKinds(s: State, a: Action)
    requires s.destructor.NotCalled? && Enabled(s, a) && Own(a)
    ensures ByWorker(a) || ByClient(a)
  {
  }

  predicate AllOwn(r: Run) {
    forall i :: 0 <= i < |r| ==> Own(r[i])
  }

  /** The steps of the pool itself between two calls are bounded. */
  lemma {:induction false} OperationIsBounded(s: State, r: Run)
    requires Inv(s) && s.destructor.NotCalled? && CanRun(s, r) && AllOwn(r)
    ensures Exec(s, r).destructor.NotCalled? && |r| + Busy(Exec(s, r)) <= Busy(s)
    decreases |r|
  {
    hide Inv, Enabled, Step, Stopping, Busy, Own;
    if |r| > 0 {
      StoppingOf(s);
      OwnStepSettles(s, r[0]);
      StepKeeps(s, r[0]);
      OperationIsBounded(Step(s, r[0]), r[1..]);
    }
  }

  /** With no own step left, everything accepted has been run and all workers sleep. */
  lemma QuietMeansDone(s: State)
    requires Inv(s) && |s.workers| > 0 && s.destructor.NotCalled?
    requires forall a :: Own(a) ==> !Enabled(s, a)
    ensures s.queue == [] && s.started == s.accepted
    ensures forall k: nat :: k < |s.accepted| <==> k in s.finished
    ensures forall w :: 0 <= w < |s.workers| ==> s.workers[w].Asleep?
  {
    NothingMoves(s);
    NobodyHasATask(s);
    hide Mutex, NoneStranded, OneRunner;
    forall w | 0 <= w < |s.workers| ensures s.workers[w].Asleep? { assert s.workers[w] in s.workers; }
  }

  lemma NothingMoves(s: State)
    requires Inv(s) && |s.workers| > 0 && s.destructor.NotCalled?
    requires forall a :: Own(a) ==> !Enabled(s, a)
    ensures s.queue == [] && forall w :: 0 <= w < |s.workers| ==> s.workers[w].Asleep? || s.workers[w].Exited?
  {
    hide Enabled, Own, OneRunner;
    if s.lock != Nobody {
      var a := LockHolderMoves(s);
    } else {
      var moves, a := FreeLockMoves(s);
      AllAsleepMeansEmpty(s);
    }
  }

  lemma NobodyHasATask(s: State)
    requires OneRunner(s) && forall w :: 0 <= w < |s.workers| ==> s.workers[w].Asleep? || s.workers[w].Exited?
    ensures forall k: nat :: k < |s.started| <==> k in s.finished
  {
    forall k: nat | k < |s.started| ensures k in s.finished { assert Accounted(s, k); }
  }

  /** Then no call is under way either. */
  lemma NobodyCalls(s: State)
    requires Inv(s) && forall a :: Own(a) ==> !Enabled(s, a)
    ensures forall c :: 0 <= c < |s.clients| ==> s.clients[c].Outside?
  {
    hide Enabled, Own, OneRunner, NoneStranded, Stopping;
    if s.lock != Nobody {
      var a := LockHolderMoves(s);
    } else {
      var moves, a := FreeLockMoves(s);
    }
  }

  lemma {:induction false} NoThrowWithoutStop(s: State, r: Run)
    requires CanRun(s, r) && !Exec(s, r).stop
    ensures NoThrow(r) && !s.stop
    decreases |r|
  {
    if |r| > 0 {
      StopStays(s, r[0]);
      hide Step, Enabled;
      NoThrowWithoutStop(Step(s, r[0]), r[1..]);
      assert forall k :: 0 < k < |r| ==> r[k] == r[1..][k - 1];
    }
  }

  lemma StopStays(s: State, a: Action)
    requires Enabled(s, a)
    ensures s.stop ==> Step(s, a).stop
    ensures a.Throw? ==> s.stop
  {
  }

  lemma {:induction false} OwnStepsCallNothing(q: Run, c: nat)
    requires AllOwn(q)
    ensures Calls(q) == [] && CallsOf(q, c) == []
  {
    if |q| > 0 {
      assert Own(q[0]);
      OwnStepsCallNothing(q[1..], c);
    }
  }

  /** With nobody calling, what the clients had accepted is all they passed. */
  lemma AcceptedIsAll(n: nat, m: nat, r: Run, q: Run, t: State, c: nat)
    requires CanRun(Init(n, m), r) && CanRun(Exec(Init(n, m), r), q) && AllOwn(q) && t == Exec(Exec(Init(n, m), r), q)
    requires !t.stop && forall c :: 0 <= c < |t.clients| ==> t.clients[c].Outside?
    ensures |t.submitters| == |t.accepted| && Of(t.accepted, t.submitters, c) == CallsOf(r, c)
  {
    var s0, s := Init(n, m), Exec(Init(n, m), r);
    hide CanRun, Exec, Of, Gather, Init, Own, HandBag, CallsOf, Calls, Bag, Given, Output;
    NoThrowWithoutStop(s, q);
    NoThrowWithoutStop(s0, r);
    OwnStepsCallNothing(q, c);
    NobodyHolds(t, c);
    NothingAccepted(n, m, c);
    AcceptedIsGiven(s0, r, c);
    AcceptedIsGiven(s, q, c);
    GivenWithoutThrow(r, c, Output(s0, c));
    GivenWithoutThrow(q, c, Output(s, c));
  }

  /** And all of that together is all that was passed. */
  lemma AcceptedBag(n: nat, m: nat, r: Run, q: Run, t: State)
    requires CanRun(Init(n, m), r) && CanRun(Exec(Init(n, m), r), q) && AllOwn(q) && t == Exec(Exec(Init(n, m), r), q)
    requires !t.stop && forall c :: 0 <= c < |t.clients| ==> t.clients[c].Outside?
    ensures Bag(t.accepted) == Bag(Calls(r))
  {
    var s0, s := Init(n, m), Exec(Init(n, m), r);
    hide *;
    NoThrowWithoutStop(s, q);
    NoThrowWithoutStop(s0, r);
    OwnStepsCallNothing(q, 0);
    NobodyHolds(t, 0);
    NothingAccepted(n, m, 0);
    SubmittedIsAccepted(s0, r);
    SubmittedIsAccepted(s, q);
    AddNothing(Bag(t.accepted));
    AddNothing(Bag(s.accepted) + Gather(s.clients, HandBag));
    AddNothing(Bag(Calls(r)));
  }

  lemma AddNothing(xs: multiset<Task>)
    ensures xs + multiset{} == xs == multiset{} + multiset{} + xs
  {
  }

  lemma NobodyHolds(s: State, c: nat)
    requires forall c :: 0 <= c < |s.clients| ==> s.clients[c].Outside?
    ensures Gather(s.clients, HandBag) == multiset{}
    ensures |s.submitters| == |s.accepted| ==> Output(s, c) == Of(s.accepted, s.submitters, c)
  {
    GatherNone(s.clients, HandBag);
  }

  lemma NothingAccepted(n: nat, m: nat, c: nat)
    ensures Init(n, m).accepted == Init(n, m).submitters == [] && Output(Init(n, m), c) == []
    ensures Gather(Init(n, m).clients, HandBag) == multiset{} && Bag<Task>([]) == multiset{}
  {
    GatherNone(Init(n, m).clients, HandBag);
  }

  /** Ordinary operation: from any reachable state, the pool left to itself comes to
    * rest within a bounded number of steps, and only when it has run, in the order of
    * acceptance, exactly the tasks that were passed to submitTask, each client's in
    * the order of its calls. */
  lemma OperationCompletes(n: nat, m: nat, r: Run, q: Run)
    requires n > 0 && CanRun(Init(n, m), r) && Exec(Init(n, m), r).destructor.NotCalled?
    requires CanRun(Exec(Init(n, m), r), q) && AllOwn(q)
    ensures var s, t := Exec(Init(n, m), r), Exec(Exec(Init(n, m), r), q);
      && |q| <= Busy(s)
      && ((forall a :: Own(a) ==> !Enabled(t, a)) ==>
            && t.queue == [] && t.started == t.accepted && (forall k: nat :: k < |t.accepted| <==> k in t.finished)
            && Bag(t.started) == Bag(Calls(r))
            && |t.submitters| == |t.started| && (forall c: nat :: Of(t.started, t.submitters, c) == CallsOf(r, c)))
  {
    hide *;
    InitInv(n, m);
    RunKeeps(Init(n, m), r);
    var s := Exec(Init(n, m), r);
    RunKeeps(s, q);
    OperationIsBounded(s, q);
    SameThreads(Init(n, m), r);
    SameThreads(s, q);
    InitWorkers(n, m);
    var t := Exec(s, q);
    if forall a :: Own(a) ==> !Enabled(t, a) {
      QuietMeansDone(t);
      NobodyCalls(t);
      NotStopped(t);
      AcceptedIsAll(n, m, r, q, t, 0);
      AcceptedBag(n, m, r, q, t);
      forall c: nat ensures |t.submitters| == |t.started| && Of(t.started, t.submitters, c) == CallsOf(r, c) {
        AcceptedIsAll(n, m, r, q, t, c);
      }
    }
  }

  lemma NotStopped(s: State)
    requires Inv(s) && s.destructor.NotCalled?
    ensures !s.stop
  {
  }

  lemma InitWorkers(n: nat, m: nat)
    ensures |Init(n, m).workers| == n
  {
  }

  // ------------------------------------------------------------------- shutdown

  function WorkerWork(w: Worker): nat {
    match w
    case Popped(_) => 7
    case Running(_) => 6
    case Asleep => 5
    case Wanting => 4
    case Checking => 3
    case Holding => 2
    case Exited => 0
  }

  function ClientWork(c: Client): nat {
    match c
    case Outside => 0
    case AtLock(_) => 2
    case InLock(_) => 1
    case Pushed => 2
    case Unlocked => 1
  }

  function DestructorWork(d: Destructor, n: nat): nat {
    match d
    case MustNotify => n + 2
    case Joining(k) => if k <= n then n - k + 1 else 1
    case Done => 0
    case _ => n + 3
  }

  /** The steps left until shutdown is over. */
  function Remaining(s: State): nat {
    Sum(s.workers, WorkerWork) + 6 * |s.queue| + Sum(s.clients, ClientWork) + DestructorWork(s.destructor, |s.workers|)
  }

  lemma {:induction false} WakingIsProgress(ws: seq<Worker>)
    ensures Sum(WakeAll(ws), WorkerWork) <= Sum(ws, WorkerWork)
  {
    if |ws| > 0 {
      WakingIsProgress(ws[..|ws| - 1]);
      assert WakeAll(ws)[..|ws| - 1] == WakeAll(ws[..|ws| - 1]);
    }
  }

  lemma WorkerShrinks(s: State, w: nat, at: Worker, queue: seq<Task>)
    requires w < |s.workers| && WorkerWork(at) + 6 * |queue| < WorkerWork(s.workers[w]) + 6 * |s.queue|
    ensures Sum(s.workers[w := at], WorkerWork) + 6 * |queue| < Sum(s.workers, WorkerWork) + 6 * |s.queue|
  {
    SumUpdate(s.workers, WorkerWork, w, at);
  }

  lemma ClientShrinks(s: State, c: nat, at: Client)
    requires c < |s.clients| && ClientWork(at) < ClientWork(s.clients[c])
    ensures Sum(s.clients[c := at], ClientWork) < Sum(s.clients, ClientWork)
  {
    SumUpdate(s.clients, ClientWork, c, at);
  }

  lemma WorkerStepShrinks(s: State, a: Action)
    requires s.stop && Enabled(s, a) && ByWorker(a)
    requires a.Pop? ==> s.queue != []
    ensures Remaining(Step(s, a)) < Remaining(s)
  {
    hide Sum;
    var t := Step(s, a);
    var w := a.w;
    WorkerShrinks(s, w, t.workers[w], t.queue);
  }

  lemma ClientStepShrinks(s: State, a: Action)
    requires s.stop && Enabled(s, a) && ByClient(a) && !a.Call?
    ensures Remaining(Step(s, a)) < Remaining(s)
  {
    hide Sum;
    var t := Step(s, a);
    ClientShrinks(s, a.c, t.clients[a.c]);
    if a.NotifyOne? { WorkerShrinks(s, a.w, Wanting, s.queue); }
  }

  lemma DestructorStepShrinks(s: State, a: Action)
    requires Stopping(s) && s.stop && Enabled(s, a) && !ByWorker(a) && !ByClient(a)
    ensures Remaining(Step(s, a)) < Remaining(s)
  {
    hide Sum;
    WakingIsProgress(s.workers);
  }

  /** Once stop is set, every step but a new call brings the end nearer. */
  lemma ShutdownShrinks(s: State, a: Action)
    requires Stopping(s) && s.stop && Enabled(s, a) && !a.Call?
    ensures Remaining(Step(s, a)) < Remaining(s)
  {
    hide Sum, Remaining, Step;
    if ByWorker(a) {
      WorkerStepShrinks(s, a);
    } else if ByClient(a) {
      ClientStepShrinks(s, a);
    } else {
      DestructorStepShrinks(s, a);
    }
  }

  predicate NoCalls(r: Run) {
    forall i :: 0 <= i < |r| ==> !r[i].Call?
  }

  /** So a shutdown takes a bounded number of steps, spurious wakeups included. */
  lemma {:induction false} ShutdownIsBounded(s: State, r: Run)
    requires Inv(s) && s.stop && CanRun(s, r) && NoCalls(r)
    ensures Exec(s, r).stop && Exec(s, r).accepted == s.accepted
    ensures |r| + Remaining(Exec(s, r)) <= Remaining(s)
    decreases |r|
  {
    hide Inv, Enabled, Step, Stopping, Remaining;
    if |r| > 0 {
      StoppingOf(s);
      ShutdownShrinks(s, r[0]);
      OrderOfService(s, r[0]);
      StepKeeps(s, r[0]);
      ShutdownIsBounded(Step(s, r[0]), r[1..]);
    }
  }

  lemma StoppingOf(s: State)
    requires Inv(s)
    ensures Stopping(s)
  {
  }

  /** When all joins have returned the queue is empty, every accepted task has been
    * dequeued in order, and every one of them has finished. */
  lemma ShutdownDrains(s: State)
    requires Inv(s) && |s.workers| > 0 && s.destructor.Done?
    ensures s.queue == [] && s.started == s.accepted
    ensures forall n: nat :: n < |s.accepted| <==> n in s.finished
    ensures forall w :: 0 <= w < |s.workers| ==> s.workers[w].Exited?
  {
    hide NoneStranded, Mutex;
    assert s.workers[0] in s.workers;
    forall n: nat | n < |s.started| ensures n in s.finished {
      assert Accounted(s, n);
    }
  }

  lemma {:induction false} GivenAppend(r: Run, q: Run, c: nat, before: seq<Task>)
    ensures Given(r + q, c, before) == Given(q, c, Given(r, c, before))
  {
    if |r| == 0 {
      assert r + q == q;
    } else {
      assert (r + q)[1..] == r[1..] + q;
      GivenAppend(r[1..], q, c, GivenNext(r[0], c, before));
    }
  }

  /** Whatever the run: with no call under way, each client has had accepted exactly
    * the tasks of its calls that did not throw. */
  lemma AnsweredCalls(n: nat, m: nat, r: Run, q: Run, t: State, c: nat)
    requires CanRun(Init(n, m), r) && CanRun(Exec(Init(n, m), r), q) && t == Exec(Exec(Init(n, m), r), q)
    requires forall c :: 0 <= c < |t.clients| ==> t.clients[c].Outside?
    ensures |t.submitters| == |t.accepted| && Of(t.accepted, t.submitters, c) == Given(r + q, c, [])
  {
    hide CanRun, Exec, Of, Given, Init, Gather, Output, HandBag;
    NothingAccepted(n, m, c);
    AcceptedIsGiven(Init(n, m), r, c);
    AcceptedIsGiven(Exec(Init(n, m), r), q, c);
    GivenAppend(r, q, c, []);
    NobodyHolds(t, c);
  }

  /** The destructor on any reachable state: let it run without new calls until
    * nothing of its own can move, and every task ever accepted has run: for each
    * client, the tasks of its calls that did not throw, in order. */
  lemma ShutdownCompletes(n: nat, m: nat, r: Run, q: Run)
    requires n > 0 && CanRun(Init(n, m), r) && Exec(Init(n, m), r).stop
    requires CanRun(Exec(Init(n, m), r), q) && NoCalls(q)
    requires forall a :: Own(a) ==> !Enabled(Exec(Exec(Init(n, m), r), q), a)
    ensures var s, t := Exec(Init(n, m), r), Exec(Exec(Init(n, m), r), q);
      && |q| <= Remaining(s) && t.started == t.accepted == s.accepted
      && (forall k: nat :: k < |s.accepted| <==> k in t.finished)
      && |t.submitters| == |t.started| && (forall c: nat :: Of(t.started, t.submitters, c) == Given(r + q, c, []))
  {
    hide *;
    InitInv(n, m);
    RunKeeps(Init(n, m), r);
    var s := Exec(Init(n, m), r);
    RunKeeps(s, q);
    var t := Exec(s, q);
    ShutdownIsBounded(s, q);
    SameThreads(Init(n, m), r);
    SameThreads(s, q);
    InitWorkers(n, m);
    if !t.destructor.Done? {
      var a := AlwaysProgress(t);
    }
    ShutdownDrains(t);
    NobodyCalls(t);
    AnsweredCalls(n, m, r, q, t, 0);
    forall c: nat ensures |t.submitters| == |t.started| && Of(t.started, t.submitters, c) == Given(r + q, c, []) {
      AnsweredCalls(n, m, r, q, t, c);
    }
  }

  lemma {:induction false} SameThreads(s: State, r: Run)
    requires CanRun(s, r)
    ensures |Exec(s, r).workers| == |s.workers|
    decreases |r|
  {
    if |r| > 0 {
      ThreadsKept(s, r[0]);
      hide Step, Enabled;
      SameThreads(Step(s, r[0]), r[1..]);
    }
  }

  lemma ThreadsKept(s: State, a: Action)
    requires Enabled(s, a)
    ensures |Step(s, a).workers| == |s.workers|
  {
  }
}

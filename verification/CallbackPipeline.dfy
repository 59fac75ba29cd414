/** The callback pipeline of case3_submitTasks.cpp: parallel tasks push results
  * under a lock and notify one serial thread that reduces them. `early` is the
  * ordering the source's comment warns of, where a task notifies before it counts
  * itself as completed. */
module CallbackPipeline {
  import opened Sums

  datatype Task = Computing | WantsLock | InLock | Pushed | Counted | MustNotify | Late | Done

  datatype Serial =
    | WantsLock
    | Checking
    | Asleep
    | Draining
    | Reducing(i: nat)
    | Relocking
    | Exited

  datatype Owner = Nobody | TaskHas(i: nat) | SerialHas

  /** `values` holds the reduced value of each task's result. `order` lists the
    * tasks as they pushed, of which the first `taken` have left the queue. */
  datatype State = State(values: seq<int>, lock: Owner, tasks: seq<Task>, serial: Serial,
                         order: seq<nat>, taken: nat, completed: nat, total: int)

  datatype Action =
    | Compute(i: nat)
    | Lock(i: nat)
    | Push(i: nat)
    | Count(i: nat)
    | Unlock(i: nat)
    | Notify(i: nat)
    | CountLate(i: nat)
    | SerialLock
    | GoToSleep
    | Proceed
    | SpuriousWake
    | TakeResult
    | Reduce
    | LockAgain
    | LoopOrBreak

  predicate QueueEmpty(s: State) {
    s.taken >= |s.order|
  }

  predicate AllCompleted(s: State) {
    s.completed == |s.values|
  }

  predicate TaskIs(s: State, i: nat, t: Task) {
    i < |s.tasks| && s.tasks[i] == t
  }

  predicate Enabled(early: bool, s: State, a: Action) {
    match a
    case Compute(i) => TaskIs(s, i, Computing)
    case Lock(i) => TaskIs(s, i, Task.WantsLock) && s.lock == Nobody
    case Push(i) => TaskIs(s, i, InLock)
    case Count(i) => TaskIs(s, i, Pushed) && !early
    case Unlock(i) => TaskIs(s, i, if early then Pushed else Counted)
    case Notify(i) => TaskIs(s, i, MustNotify)
    case CountLate(i) => TaskIs(s, i, Late) && early
    case SerialLock => s.serial == Serial.WantsLock && s.lock == Nobody
    case GoToSleep => s.serial == Checking && QueueEmpty(s) && !AllCompleted(s)
    case Proceed => s.serial == Checking && (!QueueEmpty(s) || AllCompleted(s))
    case SpuriousWake => s.serial == Asleep
    case TakeResult => s.serial == Draining && !QueueEmpty(s)
    case Reduce => s.serial.Reducing?
    case LockAgain => s.serial == Relocking && s.lock == Nobody
    case LoopOrBreak => s.serial == Draining && QueueEmpty(s)
  }

  function Move(s: State, i: nat, t: Task): State
    requires i < |s.tasks|
  {
    s.(tasks := s.tasks[i := t])
  }

  function Value(s: State, i: nat): int {
    if i < |s.values| then s.values[i] else 0
  }

  function Step(early: bool, s: State, a: Action): State
    requires Enabled(early, s, a)
  {
    match a
    case Compute(i) => Move(s, i, Task.WantsLock)
    case Lock(i) => Move(s, i, InLock).(lock := TaskHas(i))
    case Push(i) => Move(s, i, Pushed).(order := s.order + [i])
    case Count(i) => Move(s, i, Counted).(completed := s.completed + 1)
    case Unlock(i) => Move(s, i, MustNotify).(lock := Nobody)
    case Notify(i) =>
      Move(s, i, if early then Late else Done).(serial := if s.serial == Asleep then Serial.WantsLock else s.serial)
    case CountLate(i) => Move(s, i, Done).(completed := s.completed + 1)
    case SerialLock => s.(serial := Checking, lock := SerialHas)
    case GoToSleep => s.(serial := Asleep, lock := Nobody)
    case Proceed => s.(serial := Draining)
    case SpuriousWake => s.(serial := Serial.WantsLock)
    case TakeResult => s.(serial := Reducing(s.order[s.taken]), taken := s.taken + 1, lock := Nobody)
    case Reduce => s.(serial := Relocking, total := s.total + Value(s, s.serial.i))
    case LockAgain => s.(serial := Draining, lock := SerialHas)
    case LoopOrBreak => s.(serial := if AllCompleted(s) then Exited else Serial.WantsLock, lock := Nobody)
  }

  function Init(values: seq<int>): State {
    State(values, Nobody, seq(|values|, _ => Computing), Serial.WantsLock, [], 0, 0, 0)
  }

  type Run = seq<Action>

  predicate CanRun(early: bool, s: State, r: Run)
    decreases |r|
  {
    |r| == 0 || (Enabled(early, s, r[0]) && CanRun(early, Step(early, s, r[0]), r[1..]))
  }

  function Exec(early: bool, s: State, r: Run): State
    requires CanRun(early, s, r)
    decreases |r|
  {
    if |r| == 0 then s else Exec(early, Step(early, s, r[0]), r[1..])
  }

  // ---------------------------------------------------------------- invariant

  predicate TaskInside(t: Task) {
    t.InLock? || t.Pushed? || t.Counted?
  }

  ghost predicate Mutex(s: State) {
    && (forall i :: 0 <= i < |s.tasks| ==> (TaskInside(s.tasks[i]) <==> s.lock == TaskHas(i)))
    && (s.serial.Checking? || s.serial.Draining? <==> s.lock == SerialHas)
    && (s.lock.TaskHas? ==> s.lock.i < |s.tasks|)
  }

  predicate HasPushed(t: Task) {
    t.Pushed? || t.Counted? || t.MustNotify? || t.Late? || t.Done?
  }

  function IsCompleted(t: Task): nat {
    if t.Counted? || t.MustNotify? || t.Done? then 1 else 0
  }

  function OwesNotify(t: Task): nat {
    if t.Pushed? || t.Counted? || t.MustNotify? then 1 else 0
  }

  /** Each task pushes once, and what has been added up is what has been reduced. */
  ghost predicate Ledger(s: State) {
    && |s.tasks| == |s.values| && s.taken <= |s.order|
    && (forall i, j :: 0 <= i < j < |s.order| ==> s.order[i] != s.order[j])
    && (forall i: nat :: i in s.order <==> i < |s.tasks| && HasPushed(s.tasks[i]))
    && (s.serial.Reducing? ==> s.taken > 0 && s.serial.i == s.order[s.taken - 1])
    && s.total == Total(s.values, s.order[..Reduced(s)])
  }

  /** How many results have been added to the total. */
  function Reduced(s: State): nat {
    if s.serial.Reducing? && s.taken > 0 then s.taken - 1 else s.taken
  }

  function Total(values: seq<int>, order: seq<nat>): int {
    if |order| == 0 then 0
    else
      var i := order[|order| - 1];
      Total(values, order[..|order| - 1]) + if i < |values| then values[i] else 0
  }

  /** Counting before notifying: `completed` is exact and every wakeup is covered. */
  ghost predicate NoLostWakeup(s: State) {
    && s.completed == Sum(s.tasks, IsCompleted)
    && Late !in s.tasks
    && (s.serial.Asleep? && (!QueueEmpty(s) || AllCompleted(s)) ==> Sum(s.tasks, OwesNotify) > 0)
    && (s.serial.Exited? ==> QueueEmpty(s) && AllCompleted(s))
  }

  ghost predicate Inv(s: State) {
    Mutex(s) && Ledger(s) && NoLostWakeup(s)
  }

  lemma InitInv(values: seq<int>)
    ensures Inv(Init(values))
  {
    SumAll(Init(values).tasks, IsCompleted, 0);
  }

  lemma MutexKept(s: State, a: Action)
    requires Mutex(s) && Enabled(false, s, a)
    ensures Mutex(Step(false, s, a))
  {
  }

  lemma {:induction false} CompletedBound(ts: seq<Task>)
    ensures Sum(ts, IsCompleted) <= |ts|
    ensures Sum(ts, IsCompleted) == |ts| ==> forall i :: 0 <= i < |ts| ==> IsCompleted(ts[i]) == 1
  {
    if |ts| > 0 { CompletedBound(ts[..|ts| - 1]); }
  }

  predicate ByTask(a: Action) {
    a.Compute? || a.Lock? || a.Push? || a.Count? || a.Unlock? || a.Notify? || a.CountLate?
  }

  lemma PushLedger(s: State, i: nat)
    requires Ledger(s) && Enabled(false, s, Push(i))
    ensures Ledger(Step(false, s, Push(i)))
  {
    var t := Step(false, s, Push(i));
    assert t.order[..Reduced(t)] == s.order[..Reduced(s)];
    assert t.tasks[i] == Pushed && forall j :: 0 <= j < |s.tasks| && j != i ==> t.tasks[j] == s.tasks[j];
    hide Total;
  }

  lemma TaskLedger(s: State, a: Action)
    requires Ledger(s) && Enabled(false, s, a) && ByTask(a) && !a.Push?
    ensures Ledger(Step(false, s, a))
  {
    hide Total;
    var t := Step(false, s, a);
    assert forall j :: 0 <= j < |s.tasks| ==> (HasPushed(t.tasks[j]) <==> HasPushed(s.tasks[j]));
  }

  lemma ReduceLedger(s: State)
    requires Ledger(s) && Enabled(false, s, Reduce)
    ensures Ledger(Step(false, s, Reduce))
  {
    assert s.order[..s.taken][..s.taken - 1] == s.order[..s.taken - 1];
    assert s.order[s.taken - 1] in s.order;
  }

  lemma SerialLedger(s: State, a: Action)
    requires Ledger(s) && Enabled(false, s, a) && !ByTask(a) && !a.Reduce?
    ensures Ledger(Step(false, s, a))
  {
    hide Total;
  }

  lemma LedgerKept(s: State, a: Action)
    requires Ledger(s) && Enabled(false, s, a)
    ensures Ledger(Step(false, s, a))
  {
    hide Ledger, Step, Enabled;
    if a.Push? {
      PushLedger(s, a.i);
    } else if ByTask(a) {
      TaskLedger(s, a);
    } else if a.Reduce? {
      ReduceLedger(s);
    } else {
      SerialLedger(s, a);
    }
  }

  lemma TaskWakeup(s: State, a: Action)
    requires NoLostWakeup(s) && Enabled(false, s, a) && ByTask(a) && |s.tasks| == |s.values|
    ensures NoLostWakeup(Step(false, s, a))
  {
    var t := Step(false, s, a);
    SumUpdate(s.tasks, IsCompleted, a.i, t.tasks[a.i]);
    SumUpdate(s.tasks, OwesNotify, a.i, t.tasks[a.i]);
    SumAtLeast(t.tasks, OwesNotify, a.i);
    CompletedBound(s.tasks);
    hide Sum;
  }

  lemma SerialWakeup(s: State, a: Action)
    requires NoLostWakeup(s) && Enabled(false, s, a) && !ByTask(a)
    ensures NoLostWakeup(Step(false, s, a))
  {
    hide Sum;
  }

  lemma StepKeeps(s: State, a: Action)
    requires Inv(s) && Enabled(false, s, a)
    ensures Inv(Step(false, s, a))
  {
    MutexKept(s, a);
    LedgerKept(s, a);
    if ByTask(a) { TaskWakeup(s, a); } else { SerialWakeup(s, a); }
    hide Mutex, Ledger, NoLostWakeup, Step, Enabled;
  }

  lemma {:induction false} RunKeeps(s: State, r: Run)
    requires Inv(s) && CanRun(false, s, r)
    ensures Inv(Exec(false, s, r)) && Exec(false, s, r).values == s.values
    decreases |r|
  {
    if |r| > 0 {
      StepKeeps(s, r[0]);
      ValuesKept(s, r[0]);
      hide Inv, Step, Enabled;
      RunKeeps(Step(false, s, r[0]), r[1..]);
    }
  }

  lemma ValuesKept(s: State, a: Action)
    requires Enabled(false, s, a)
    ensures Step(false, s, a).values == s.values
  {
  }

  // ------------------------------------------------------------------ who waits

  /** Every result pushed so far has been taken from the queue. */
  ghost predicate AllTaken(s: State) {
    s.taken <= |s.order| && forall i: nat :: i < |s.tasks| && HasPushed(s.tasks[i]) ==> i in s.order[..s.taken]
  }

  ghost predicate AllCounted(s: State) {
    forall i :: 0 <= i < |s.tasks| ==> IsCompleted(s.tasks[i]) == 1
  }

  lemma QueueEmptyIff(s: State)
    requires Ledger(s)
    ensures QueueEmpty(s) <==> AllTaken(s)
  {
    if s.taken < |s.order| {
      assert s.order[s.taken] in s.order;
    } else {
      assert s.order[..s.taken] == s.order;
    }
  }

  lemma CompletedIff(s: State)
    requires Ledger(s) && NoLostWakeup(s)
    ensures AllCompleted(s) <==> AllCounted(s)
  {
    FullCount(s.tasks, IsCompleted);
  }

  /** The serial thread sleeps exactly if it has taken every result pushed so far and
    * some task is still to be counted, and leaves exactly if all are counted. Otherwise
    * it is held up by nothing but the lock. */
  lemma WhenSerialWaits(s: State)
    requires Inv(s)
    ensures Enabled(false, s, GoToSleep) <==> s.serial.Checking? && AllTaken(s) && !AllCounted(s)
    ensures Enabled(false, s, LoopOrBreak) <==> s.serial.Draining? && AllTaken(s)
    ensures Enabled(false, s, LoopOrBreak) ==> (Step(false, s, LoopOrBreak).serial.Exited? <==> AllCounted(s))
    ensures (forall a :: !ByTask(a) && !a.SpuriousWake? ==> !Enabled(false, s, a)) <==>
      s.serial.Asleep? || s.serial.Exited? || ((s.serial.WantsLock? || s.serial.Relocking?) && s.lock != Nobody)
  {
    QueueEmptyIff(s);
    CompletedIff(s);
    hide Mutex, Ledger, NoLostWakeup, AllTaken, AllCounted;
    var a := match s.serial
      case WantsLock => SerialLock
      case Checking => if QueueEmpty(s) && !AllCompleted(s) then GoToSleep else Proceed
      case Draining => if QueueEmpty(s) then LoopOrBreak else TakeResult
      case Reducing(_) => Reduce
      case _ => LockAgain;
    assert !ByTask(a) && !a.SpuriousWake?;
  }

  /** A task is held up by nothing but the lock. */
  lemma WhenTasksWait(s: State, i: nat)
    requires Inv(s) && i < |s.tasks|
    ensures (forall a :: ByTask(a) && a.i == i ==> !Enabled(false, s, a)) <==>
      s.tasks[i].Done? || (s.tasks[i].WantsLock? && s.lock != Nobody)
  {
    hide Mutex, Ledger;
    assert s.tasks[i] in s.tasks;
    var a := match s.tasks[i]
      case Computing => Compute(i)
      case WantsLock => Lock(i)
      case InLock => Push(i)
      case Pushed => Count(i)
      case Counted => Unlock(i)
      case _ => Notify(i);
    assert ByTask(a) && a.i == i;
  }

  // ------------------------------------------------------------------ progress

  /** While anything is unfinished, some step other than a spurious wakeup is possible. */
  lemma NeverStuck(s: State) returns (a: Action)
    requires Inv(s) && !(s.serial.Exited? && forall i :: 0 <= i < |s.tasks| ==> s.tasks[i].Done?)
    ensures Enabled(false, s, a) && !a.SpuriousWake?
  {
    a := SpuriousWake;
    if i :| 0 <= i < |s.tasks| && !s.tasks[i].Done? && !s.tasks[i].WantsLock? {
      a := TaskMoves(s, i);
    } else {
      assert forall i :: 0 <= i < |s.tasks| ==> !TaskInside(s.tasks[i]);
      if s.lock == Nobody && exists i :: 0 <= i < |s.tasks| && s.tasks[i].WantsLock? {
        var i :| 0 <= i < |s.tasks| && s.tasks[i].WantsLock?;
        a := Lock(i);
      } else {
        a := SerialMoves(s);
      }
    }
  }

  lemma TaskMoves(s: State, i: nat) returns (a: Action)
    requires NoLostWakeup(s) && i < |s.tasks| && !s.tasks[i].Done? && !s.tasks[i].WantsLock?
    ensures Enabled(false, s, a) && !a.SpuriousWake?
  {
    assert s.tasks[i] in s.tasks;
    a := match s.tasks[i]
      case Computing => Compute(i)
      case InLock => Push(i)
      case Pushed => Count(i)
      case Counted => Unlock(i)
      case _ => Notify(i);
  }

  /** The serial thread can move, unless it is asleep with a task still to come. */
  lemma SerialMoves(s: State) returns (a: Action)
    requires Inv(s) && forall i :: 0 <= i < |s.tasks| ==> s.tasks[i].Done? || s.tasks[i].WantsLock?
    requires s.lock == Nobody ==> forall i :: 0 <= i < |s.tasks| ==> !s.tasks[i].WantsLock?
    requires s.lock == Nobody ==> !s.serial.Exited?
    ensures Enabled(false, s, a) && !a.SpuriousWake?
  {
    assert !s.lock.TaskHas?;
    SumAll(s.tasks, OwesNotify, 0);
    if s.lock == Nobody {
      SumAll(s.tasks, IsCompleted, 1);
    }
    a := match s.serial
      case WantsLock => SerialLock
      case Checking => if QueueEmpty(s) && !AllCompleted(s) then GoToSleep else Proceed
      case Draining => if QueueEmpty(s) then LoopOrBreak else TakeResult
      case Reducing(_) => Reduce
      case _ => LockAgain;
  }

  // --------------------------------------------------------------- termination

  function TaskWork(t: Task): nat {
    match t
    case Computing => 17
    case WantsLock => 16
    case InLock => 15
    case Pushed => 8
    case Counted => 7
    case MustNotify => 6
    case Late => 1
    case Done => 0
  }

  /** A drained queue costs the serial thread another round unless all is done. */
  function SerialWork(s: State): nat {
    match s.serial
    case WantsLock => 4
    case Checking => 3
    case Asleep => 0
    case Draining => if QueueEmpty(s) && !AllCompleted(s) then 5 else 2
    case Reducing(_) => 7
    case Relocking => 6
    case Exited => 0
  }

  function Work(s: State): nat {
    Sum(s.tasks, TaskWork) + 6 * (if s.taken <= |s.order| then |s.order| - s.taken else 0) + SerialWork(s)
  }

  lemma WorkShrinks(s: State, a: Action)
    requires Inv(s) && Enabled(false, s, a) && !a.SpuriousWake?
    ensures Work(Step(false, s, a)) < Work(s)
  {
    hide Step, Work, NoLostWakeup;
    if ByTask(a) { TaskShrinks(s, a); } else { SerialShrinks(s, a); }
  }

  lemma TaskShrinks(s: State, a: Action)
    requires Mutex(s) && Ledger(s) && Enabled(false, s, a) && ByTask(a)
    ensures Work(Step(false, s, a)) < Work(s)
  {
    var t := Step(false, s, a);
    SumUpdate(s.tasks, TaskWork, a.i, t.tasks[a.i]);
    SerialCost(s, a);
    hide Sum, Total, SerialWork, Ledger, Mutex;
  }

  /** A task's step never sends the serial thread on a new round by itself. */
  lemma SerialCost(s: State, a: Action)
    requires Mutex(s) && Enabled(false, s, a) && ByTask(a)
    ensures SerialWork(Step(false, s, a)) <= SerialWork(s) + if a.Notify? then 4 else 0
    ensures Ledger(s) ==> s.taken <= |s.order|
  {
    hide Sum, Total;
  }

  lemma SerialShrinks(s: State, a: Action)
    requires Ledger(s) && Enabled(false, s, a) && !ByTask(a) && !a.SpuriousWake?
    ensures Work(Step(false, s, a)) < Work(s)
  {
    hide Sum, Total;
  }

  predicate NoSpurious(r: Run) {
    forall i :: 0 <= i < |r| ==> !r[i].SpuriousWake?
  }

  lemma {:induction false} RunsAreBounded(s: State, r: Run)
    requires Inv(s) && CanRun(false, s, r) && NoSpurious(r)
    ensures |r| + Work(Exec(false, s, r)) <= Work(s)
    decreases |r|
  {
    hide Inv, Step, Enabled, Work;
    if |r| > 0 {
      WorkShrinks(s, r[0]);
      StepKeeps(s, r[0]);
      RunsAreBounded(Step(false, s, r[0]), r[1..]);
    }
  }

  // ------------------------------------------------------------------- the sum

  function Upto(n: nat): seq<nat> {
    seq(n, i => i)
  }

  lemma {:induction false} TotalDrop(values: seq<int>, order: seq<nat>, k: nat)
    requires k < |order|
    ensures Total(values, order)
         == Total(values, order[..k] + order[k + 1..]) + if order[k] < |values| then values[order[k]] else 0
  {
    var m := |order| - 1;
    if k < m {
      TotalDrop(values, order[..m], k);
      var rest := order[..k] + order[k + 1..];
      assert rest[..|rest| - 1] == order[..m][..k] + order[..m][k + 1..];
    } else {
      assert order[..k] + order[k + 1..] == order[..m];
    }
  }

  /** The order of completion does not matter to the sum. */
  lemma {:induction false} AnyOrderSameTotal(values: seq<int>, order: seq<nat>, n: nat)
    requires forall i, j :: 0 <= i < j < |order| ==> order[i] != order[j]
    requires forall i: nat :: i in order <==> i < n
    ensures Total(values, order) == Total(values, Upto(n))
    decreases n
  {
    if n == 0 {
      HasMember(order);
    } else {
      var last: nat := n - 1;
      assert last in order;
      var k: nat :| k < |order| && order[k] == last;
      var rest := order[..k] + order[k + 1..];
      forall i: nat ensures i in rest <==> i < n - 1 {
        if i in order && i != n - 1 {
          var j :| 0 <= j < |order| && order[j] == i;
          assert rest[if j < k then j else j - 1] == i;
        }
      }
      AnyOrderSameTotal(values, rest, n - 1);
      TotalDrop(values, order, k);
      assert Upto(n)[..n - 1] == Upto(n - 1);
    }
  }

  lemma HasMember(order: seq<nat>)
    ensures |order| > 0 ==> exists i: nat :: i in order
  {
    if |order| > 0 { assert order[0] in order; }
  }

  /** When the serial thread has exited and the tasks have returned, every result
    * was reduced once and the total is the sum over all tasks. */
  lemma FinalTotal(s: State)
    requires Inv(s) && s.serial.Exited? && forall i :: 0 <= i < |s.tasks| ==> s.tasks[i].Done?
    ensures forall i: nat :: i < |s.values| <==> i in s.order
    ensures s.total == Total(s.values, Upto(|s.values|))
  {
    assert s.order[..s.taken] == s.order;
    AnyOrderSameTotal(s.values, s.order, |s.values|);
  }

  /** For every list of tasks, the empty one included, and every interleaving: a
    * run without spurious wakeups is bounded, and it can only stop with the
    * serial thread gone and the right total. */
  lemma PipelineFinishes(values: seq<int>, r: Run)
    requires CanRun(false, Init(values), r)
    ensures NoSpurious(r) ==> |r| <= Work(Init(values))
    ensures (forall a :: Enabled(false, Exec(false, Init(values), r), a) ==> a.SpuriousWake?) ==>
      var t := Exec(false, Init(values), r);
      t.serial.Exited? && t.total == Total(values, Upto(|values|))
  {
    InitInv(values);
    RunKeeps(Init(values), r);
    if NoSpurious(r) { RunsAreBounded(Init(values), r); }
    var t := Exec(false, Init(values), r);
    if forall a :: Enabled(false, t, a) ==> a.SpuriousWake? {
      if !(t.serial.Exited? && forall i :: 0 <= i < |t.tasks| ==> t.tasks[i].Done?) {
        var a := NeverStuck(t);
      }
      FinalTotal(t);
    }
  }

  // ------------------------------------------------------- the ordering matters

  lemma OneStep(early: bool, s: State, a: Action)
    requires Enabled(early, s, a)
    ensures CanRun(early, s, [a]) && Exec(early, s, [a]) == Step(early, s, a)
  {
    assert CanRun(early, Step(early, s, a), [a][1..]);
  }

  lemma {:induction false} Appended(early: bool, s: State, a: Run, b: Run)
    requires CanRun(early, s, a) && CanRun(early, Exec(early, s, a), b)
    ensures CanRun(early, s, a + b) && Exec(early, s, a + b) == Exec(early, Exec(early, s, a), b)
    decreases |a|
  {
    if |a| == 0 {
      assert a + b == b;
    } else {
      assert (a + b)[1..] == a[1..] + b;
      Appended(early, Step(early, s, a[0]), a[1..], b);
    }
  }

  ghost predicate EarlyRun(values: seq<int>, r: Run, s: State) {
    CanRun(true, Init(values), r) && Exec(true, Init(values), r) == s
  }

  lemma Then(values: seq<int>, r: Run, s: State, a: Action) returns (q: Run, t: State)
    requires EarlyRun(values, r, s) && Enabled(true, s, a)
    ensures EarlyRun(values, q, t) && t == Step(true, s, a)
  {
    hide Step, Enabled, Init;
    OneStep(true, s, a);
    Appended(true, Init(values), r, [a]);
    q, t := r + [a], Step(true, s, a);
  }

  lemma EmptyRun(values: seq<int>)
    ensures EarlyRun(values, [], Init(values))
  {
  }

  /** The serial thread sleeps for good although every task is counted. */
  ghost predicate Hung(s: State) {
    s.serial.Asleep? && AllCompleted(s) && forall a :: Enabled(true, s, a) ==> a.SpuriousWake?
  }

  /** The first k tasks stand at x, the others at y. */
  function Row(n: nat, k: nat, x: Task, y: Task): seq<Task> {
    seq(n, i => if i < k then x else y)
  }

  lemma RowNext(n: nat, k: nat, x: Task, y: Task)
    requires k < n
    ensures Row(n, k, x, y)[k] == y && Row(n, k, x, y)[k := x] == Row(n, k + 1, x, y)
  {
  }

  lemma SerialSleepsFirst(values: seq<int>) returns (r: Run, t: State)
    requires |values| > 0
    ensures EarlyRun(values, r, t) && t == Init(values).(serial := Asleep)
  {
    EmptyRun(values);
    r, t := Then(values, [], Init(values), SerialLock);
    r, t := Then(values, r, t, GoToSleep);
  }

  /** Task k pushes its result and notifies, but does not yet count itself. */
  lemma TaskNotifies(values: seq<int>, r: Run, s: State, k: nat) returns (q: Run, t: State)
    requires EarlyRun(values, r, s) && s.lock == Nobody && k < |s.tasks| && s.tasks[k].Computing?
    requires s.serial == Serial.WantsLock || s.serial == Asleep
    ensures EarlyRun(values, q, t)
    ensures t == s.(tasks := s.tasks[k := Late], order := s.order + [k], serial := Serial.WantsLock)
  {
    hide CanRun, Exec, EarlyRun;
    q, t := Then(values, r, s, Compute(k));
    q, t := Then(values, q, t, Lock(k));
    q, t := Then(values, q, t, Push(k));
    q, t := Then(values, q, t, Unlock(k));
    q, t := Then(values, q, t, Notify(k));
    assert t.tasks == s.tasks[k := Late];
  }

  lemma {:induction false} TasksNotify(values: seq<int>, k: nat) returns (r: Run, t: State)
    requires 0 < k <= |values|
    ensures EarlyRun(values, r, t) && t.values == values && t.lock == Nobody && t.serial == Serial.WantsLock
    ensures t.tasks == Row(|values|, k, Late, Computing) && |t.order| == k && t.taken == 0 && t.completed == 0
  {
    var s;
    if k == 1 {
      r, s := SerialSleepsFirst(values);
      assert s.tasks == Row(|values|, 0, Late, Computing);
    } else {
      r, s := TasksNotify(values, k - 1);
    }
    RowNext(|values|, k - 1, Late, Computing);
    hide Row, EarlyRun;
    r, t := TaskNotifies(values, r, s, k - 1);
  }

  /** The serial thread takes and reduces all that is queued. */
  lemma {:induction false} SerialDrains(values: seq<int>, r: Run, s: State) returns (q: Run, t: State)
    requires EarlyRun(values, r, s) && s.lock == SerialHas && s.serial == Draining && s.taken <= |s.order|
    ensures EarlyRun(values, q, t) && t == s.(taken := |s.order|, total := t.total)
    decreases |s.order| - s.taken
  {
    hide CanRun, Exec, EarlyRun;
    if s.taken == |s.order| {
      q, t := r, s;
    } else {
      q, t := Then(values, r, s, TakeResult);
      q, t := Then(values, q, t, Reduce);
      q, t := Then(values, q, t, LockAgain);
      q, t := SerialDrains(values, q, t);
    }
  }

  /** It then finds the count still short and goes to sleep. */
  lemma SerialGivesUp(values: seq<int>, r: Run, s: State) returns (q: Run, t: State)
    requires EarlyRun(values, r, s) && s.lock == Nobody && s.serial == Serial.WantsLock
    requires s.taken < |s.order| && s.completed < |s.values|
    ensures EarlyRun(values, q, t) && t == s.(serial := Asleep, taken := |s.order|, total := t.total)
  {
    hide CanRun, Exec, EarlyRun;
    q, t := Then(values, r, s, SerialLock);
    q, t := Then(values, q, t, Proceed);
    q, t := SerialDrains(values, q, t);
    q, t := Then(values, q, t, LoopOrBreak);
    q, t := Then(values, q, t, SerialLock);
    q, t := Then(values, q, t, GoToSleep);
  }

  /** Now the tasks count themselves, and wake nobody. */
  lemma {:induction false} TasksCount(values: seq<int>, r: Run, s: State, k: nat) returns (q: Run, t: State)
    requires EarlyRun(values, r, s) && s.tasks == Row(|values|, k, Done, Late) && s.completed == k <= |values|
    ensures EarlyRun(values, q, t) && t == s.(tasks := Row(|values|, |values|, Done, Late), completed := |values|)
    decreases |values| - k
  {
    hide CanRun, Exec, EarlyRun;
    if k == |values| {
      q, t := r, s;
    } else {
      RowNext(|values|, k, Done, Late);
      assert |s.tasks| == |values|;
      hide Row;
      q, t := Then(values, r, s, CountLate(k));
      q, t := TasksCount(values, q, t, k + 1);
    }
  }

  /** If tasks notified before counting themselves, any positive number of them could
    * hang: the serial thread drains the queue, sees the count still short, sleeps,
    * and the last count wakes nobody. */
  lemma EarlyNotifyHangs(values: seq<int>) returns (r: Run, t: State)
    requires |values| > 0
    ensures EarlyRun(values, r, t) && Hung(t)
  {
    hide EarlyRun, Enabled;
    r, t := TasksNotify(values, |values|);
    r, t := SerialGivesUp(values, r, t);
    assert Row(|values|, |values|, Late, Computing) == Row(|values|, 0, Done, Late);
    r, t := TasksCount(values, r, t, 0);
    AllDoneHangs(t);
  }

  lemma AllDoneHangs(t: State)
    requires t.serial == Asleep && AllCompleted(t) && t.tasks == Row(|t.values|, |t.values|, Done, Late)
    ensures Hung(t)
  {
  }

  /** Without tasks the order of notifying and counting makes no difference. */
  lemma {:induction false} NoTasksSameRun(s: State, r: Run)
    requires |s.tasks| == 0 && CanRun(true, s, r)
    ensures CanRun(false, s, r) && Exec(false, s, r) == Exec(true, s, r) && |Exec(true, s, r).tasks| == 0
    decreases |r|
  {
    if |r| > 0 {
      NoTasksSameStep(s, r[0]);
      hide Enabled, Step;
      NoTasksSameRun(Step(true, s, r[0]), r[1..]);
    }
  }

  lemma NoTasksSameStep(s: State, a: Action)
    requires |s.tasks| == 0 && Enabled(true, s, a)
    ensures Enabled(false, s, a) && Step(false, s, a) == Step(true, s, a) && |Step(true, s, a).tasks| == 0
  {
  }

  ghost predicate CanHang(values: seq<int>) {
    exists r, t :: EarlyRun(values, r, t) && Hung(t)
  }

  /** Notifying before counting can hang exactly when there is a task at all. */
  lemma EarlyHangsIffTasks(values: seq<int>)
    ensures CanHang(values) <==> |values| > 0
  {
    if |values| > 0 {
      var r, t := EarlyNotifyHangs(values);
    } else if CanHang(values) {
      var r, t :| EarlyRun(values, r, t) && Hung(t);
      NoTasksSameRun(Init(values), r);
      InitInv(values);
      RunKeeps(Init(values), r);
      var a := NeverStuck(t);
      SameWithoutTasks(t, a);
    }
  }

  lemma SameWithoutTasks(s: State, a: Action)
    requires |s.tasks| == 0 && Enabled(false, s, a)
    ensures Enabled(true, s, a)
  {
  }
}

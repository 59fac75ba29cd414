/** `PersistentTeam` of bench_common.h: n worker threads and a main thread that
  * meet at a start barrier and an end barrier in every round. */
module BarrierTeam {
  import opened Sums

  /** std::barrier: completed phases, and arrivals in the current one. */
  datatype Barrier = Barrier(phase: nat, arrived: nat)

  /** A waiting thread remembers the phase it arrived in. */
  datatype Worker =
    | AtStart
    | WaitStart(p: nat)
    | Past
    | Running
    | AtEnd
    | WaitEnd(p: nat)
    | Exited

  datatype Main =
    | Ready
    | HasFn
    | MainWaitStart(p: nat)
    | MainAtEnd
    | MainWaitEnd(p: nat)
    | StopSet
    | StopWait(p: nat)
    | Joining
    | Gone

  /** `calls` lists the functions passed to run, by name; `ran[t]` those worker t
    * has called. */
  datatype State = State(start: Barrier, end: Barrier, stop: bool, fn: nat,
                         workers: seq<Worker>, main: Main, calls: seq<nat>, ran: seq<seq<nat>>)

  datatype Action =
    | Run(f: nat)
    | MainArriveStart
    | MainPassStart
    | MainArriveEnd
    | Return
    | Destroy
    | StopArrive
    | StopPass
    | Joined
    | ArriveStart(t: nat)
    | PassStart(t: nat)
    | CallFn(t: nat)
    | Quit(t: nat)
    | FnReturns(t: nat)
    | ArriveEnd(t: nat)
    | PassEnd(t: nat)

  predicate Enabled(s: State, a: Action) {
    match a
    case Run(_) => s.main.Ready?
    case MainArriveStart => s.main.HasFn?
    case MainPassStart => s.main.MainWaitStart? && s.main.p < s.start.phase
    case MainArriveEnd => s.main.MainAtEnd?
    case Return => s.main.MainWaitEnd? && s.main.p < s.end.phase
    case Destroy => s.main.Ready?
    case StopArrive => s.main.StopSet?
    case StopPass => s.main.StopWait? && s.main.p < s.start.phase
    case Joined => s.main.Joining? && forall t :: 0 <= t < |s.workers| ==> s.workers[t].Exited?
    case ArriveStart(t) => t < |s.workers| && s.workers[t].AtStart?
    case PassStart(t) => t < |s.workers| && s.workers[t].WaitStart? && s.workers[t].p < s.start.phase
    case CallFn(t) => t < |s.workers| && t < |s.ran| && s.workers[t].Past? && !s.stop
    case Quit(t) => t < |s.workers| && s.workers[t].Past? && s.stop
    case FnReturns(t) => t < |s.workers| && s.workers[t].Running?
    case ArriveEnd(t) => t < |s.workers| && s.workers[t].AtEnd?
    case PassEnd(t) => t < |s.workers| && s.workers[t].WaitEnd? && s.workers[t].p < s.end.phase
  }

  /** One more arrival; the last of n + 1 completes the phase. */
  function Arrive(b: Barrier, n: nat): Barrier {
    if b.arrived >= n then Barrier(b.phase + 1, 0) else Barrier(b.phase, b.arrived + 1)
  }

  function Move(s: State, t: nat, at: Worker): State
    requires t < |s.workers|
  {
    s.(workers := s.workers[t := at])
  }

  function Step(s: State, a: Action): State
    requires Enabled(s, a)
  {
    var n := |s.workers|;
    match a
    case Run(f) => s.(fn := f, calls := s.calls + [f], main := HasFn)
    case MainArriveStart => s.(start := Arrive(s.start, n), main := MainWaitStart(s.start.phase))
    case MainPassStart => s.(main := MainAtEnd)
    case MainArriveEnd => s.(end := Arrive(s.end, n), main := MainWaitEnd(s.end.phase))
    case Return => s.(main := Ready)
    case Destroy => s.(stop := true, main := StopSet)
    case StopArrive => s.(start := Arrive(s.start, n), main := StopWait(s.start.phase))
    case StopPass => s.(main := Joining)
    case Joined => s.(main := Gone)
    case ArriveStart(t) => Move(s, t, WaitStart(s.start.phase)).(start := Arrive(s.start, n))
    case PassStart(t) => Move(s, t, Past)
    case CallFn(t) => Move(s, t, Running).(ran := s.ran[t := s.ran[t] + [s.fn]])
    case Quit(t) => Move(s, t, Exited)
    case FnReturns(t) => Move(s, t, AtEnd)
    case ArriveEnd(t) => Move(s, t, WaitEnd(s.end.phase)).(end := Arrive(s.end, n))
    case PassEnd(t) => Move(s, t, AtStart)
  }

  function Init(n: nat): State {
    State(Barrier(0, 0), Barrier(0, 0), false, 0, seq(n, _ => AtStart), Ready, [], seq(n, _ => []))
  }

  // ---------------------------------------------------------------- invariant

  function InStart(phase: nat): Worker -> nat {
    (w: Worker) => if w == WaitStart(phase) then 1 else 0
  }

  function InEnd(phase: nat): Worker -> nat {
    (w: Worker) => if w == WaitEnd(phase) then 1 else 0
  }

  /** Arrivals counted so far are exactly the threads waiting in this phase. */
  ghost predicate Arrivals(s: State) {
    && s.start.arrived == Sum(s.workers, InStart(s.start.phase)) +
         (if s.main == MainWaitStart(s.start.phase) || s.main == StopWait(s.start.phase) then 1 else 0)
    && s.end.arrived == Sum(s.workers, InEnd(s.end.phase)) +
         (if s.main == MainWaitEnd(s.end.phase) then 1 else 0)
    && s.start.arrived <= |s.workers| && s.end.arrived <= |s.workers|
  }

  /** Where main stands determines how many phases are complete. */
  ghost predicate MainOk(s: State) {
    var k, S, E := |s.calls|, s.start.phase, s.end.phase;
    && (s.stop <==> s.main.StopSet? || s.main.StopWait? || s.main.Joining? || s.main.Gone?)
    && match s.main
       case Ready => S == k && E == k
       case HasFn => k > 0 && S == k - 1 && E == k - 1 && s.fn == s.calls[k - 1]
       case MainWaitStart(p) => k > 0 && p == k - 1 && p <= S <= k && E == k - 1 && s.fn == s.calls[k - 1]
       case MainAtEnd => k > 0 && S == k && E == k - 1 && s.fn == s.calls[k - 1]
       case MainWaitEnd(p) => k > 0 && S == k && p == k - 1 && p <= E <= k && s.fn == s.calls[k - 1]
       case StopSet => S == k && E == k
       case StopWait(p) => p == k && k <= S <= k + 1 && E == k
       case Joining => S == k + 1 && E == k
       case Gone => S == k + 1 && E == k && forall t :: 0 <= t < |s.workers| ==> s.workers[t].Exited?
  }

  /** A worker that has called r functions, between the two barriers. */
  ghost predicate WorkerOk(s: State, w: Worker, r: nat) {
    var S, E := s.start.phase, s.end.phase;
    match w
    case AtStart => r == S && r == E
    case WaitStart(p) => p == r && r == E && (p == S || p + 1 == S)
    case Past => r + 1 == S && r == E
    case Running => r == S && r == E + 1
    case AtEnd => r == S && r == E + 1
    case WaitEnd(p) => p + 1 == r && r == S && (p == E || p + 1 == E)
    case Exited => s.stop && r + 1 == S && r == E && r == |s.calls|
  }

  ghost predicate WorkersOk(s: State) {
    && |s.ran| == |s.workers|
    && forall t :: 0 <= t < |s.workers| ==>
         s.ran[t] <= s.calls && WorkerOk(s, s.workers[t], |s.ran[t]|)
  }

  ghost predicate Inv(s: State) {
    Arrivals(s) && MainOk(s) && WorkersOk(s)
  }

  lemma InitInv(n: nat)
    ensures Inv(Init(n))
  {
    SumAll(Init(n).workers, InStart(0), 0);
    SumAll(Init(n).workers, InEnd(0), 0);
  }

  // ------------------------------------------------------------ what steps keep

  lemma {:induction false} NoneCounted(ws: seq<Worker>, f: Worker -> nat)
    requires forall t :: 0 <= t < |ws| ==> f(ws[t]) == 0
    ensures Sum(ws, f) == 0
  {
    SumAll(ws, f, 0);
  }

  predicate Passing(a: Action) {
    a.PassStart? || a.CallFn? || a.Quit? || a.FnReturns? || a.PassEnd?
  }

  lemma PassingArrivals(s: State, a: Action)
    requires Arrivals(s) && Enabled(s, a) && Passing(a)
    ensures Arrivals(Step(s, a))
  {
    var t := Step(s, a);
    SumUpdate(s.workers, InStart(s.start.phase), a.t, t.workers[a.t]);
    SumUpdate(s.workers, InEnd(s.end.phase), a.t, t.workers[a.t]);
    hide Sum;
  }

  lemma PassingWorkers(s: State, a: Action)
    requires MainOk(s) && WorkersOk(s) && Enabled(s, a) && Passing(a)
    ensures WorkersOk(Step(s, a))
  {
    assert WorkerOk(s, s.workers[a.t], |s.ran[a.t]|) && s.ran[a.t] <= s.calls;
    assert a.CallFn? ==> s.calls == s.calls[..|s.ran[a.t]|] + [s.fn];
  }

  lemma PassingMain(s: State, a: Action)
    requires MainOk(s) && Enabled(s, a) && Passing(a)
    ensures MainOk(Step(s, a))
  {
  }

  lemma PassingKeeps(s: State, a: Action)
    requires Inv(s) && Enabled(s, a) && Passing(a)
    ensures Inv(Step(s, a))
  {
    PassingArrivals(s, a);
    PassingWorkers(s, a);
    PassingMain(s, a);
    hide Arrivals, MainOk, WorkersOk, Step, Enabled;
  }

  lemma MainStepKeeps(s: State, a: Action)
    requires Inv(s) && Enabled(s, a)
    requires a.Run? || a.MainPassStart? || a.Return? || a.Destroy? || a.StopPass? || a.Joined?
    ensures Inv(Step(s, a))
  {
    hide Sum;
  }

  // ----------------------------------------------------------- the start barrier

  /** When the last of n + 1 threads arrives, all workers wait in this phase. */
  lemma StartCompletes(s: State, ws: seq<Worker>)
    requires Sum(ws, InStart(s.start.phase)) == |ws|
    ensures forall t :: 0 <= t < |ws| ==> ws[t] == WaitStart(s.start.phase)
    ensures Sum(ws, InStart(s.start.phase + 1)) == 0
    ensures forall q :: Sum(ws, InEnd(q)) == 0
  {
    FullCount(ws, InStart(s.start.phase));
    forall t | 0 <= t < |ws| ensures ws[t] == WaitStart(s.start.phase) {
      assert InStart(s.start.phase)(ws[t]) == 1;
    }
    NoneCounted(ws, InStart(s.start.phase + 1));
    forall q ensures Sum(ws, InEnd(q)) == 0 { NoneCounted(ws, InEnd(q)); }
  }

  lemma EndCompletes(s: State, ws: seq<Worker>)
    requires Sum(ws, InEnd(s.end.phase)) == |ws|
    ensures forall t :: 0 <= t < |ws| ==> ws[t] == WaitEnd(s.end.phase)
    ensures Sum(ws, InEnd(s.end.phase + 1)) == 0
    ensures forall q :: Sum(ws, InStart(q)) == 0
  {
    FullCount(ws, InEnd(s.end.phase));
    forall t | 0 <= t < |ws| ensures ws[t] == WaitEnd(s.end.phase) {
      assert InEnd(s.end.phase)(ws[t]) == 1;
    }
    NoneCounted(ws, InEnd(s.end.phase + 1));
    forall q ensures Sum(ws, InStart(q)) == 0 { NoneCounted(ws, InStart(q)); }
  }

  /** What one more waiting worker does to the counts. */
  lemma OneMoreWaits(s: State, t: nat, at: Worker)
    requires t < |s.workers|
    requires (s.workers[t].AtStart? && at == WaitStart(s.start.phase)) || (s.workers[t].AtEnd? && at == WaitEnd(s.end.phase))
    ensures var ws := s.workers[t := at];
      && Sum(ws, InStart(s.start.phase)) == Sum(s.workers, InStart(s.start.phase)) + (if at.WaitStart? then 1 else 0)
      && Sum(ws, InEnd(s.end.phase)) == Sum(s.workers, InEnd(s.end.phase)) + (if at.WaitEnd? then 1 else 0)
      && Sum(ws, InStart(s.start.phase)) <= |ws| && Sum(ws, InEnd(s.end.phase)) <= |ws|
  {
    SumUpdate(s.workers, InStart(s.start.phase), t, at);
    SumUpdate(s.workers, InEnd(s.end.phase), t, at);
    FullCount(s.workers[t := at], InStart(s.start.phase));
    FullCount(s.workers[t := at], InEnd(s.end.phase));
  }

  lemma ArriveStartArrivals(s: State, a: Action)
    requires Inv(s) && Enabled(s, a) && a.ArriveStart?
    ensures Arrivals(Step(s, a))
  {
    var t := Step(s, a);
    OneMoreWaits(s, a.t, t.workers[a.t]);
    if s.start.arrived >= |s.workers| { StartCompletes(s, t.workers); }
    hide Sum, WorkersOk;
  }

  /** The arrival that completes the phase finds everybody else waiting. */
  lemma StartFilled(s: State, a: Action)
    requires Arrivals(s) && Enabled(s, a) && a.ArriveStart? && s.start.arrived >= |s.workers|
    ensures forall t :: 0 <= t < |s.workers| && t != a.t ==> s.workers[t] == WaitStart(s.start.phase)
    ensures s.main == MainWaitStart(s.start.phase) || s.main == StopWait(s.start.phase)
  {
    var ws := Step(s, a).workers;
    OneMoreWaits(s, a.t, ws[a.t]);
    StartCompletes(s, ws);
    assert forall t :: 0 <= t < |s.workers| && t != a.t ==> s.workers[t] == ws[t];
    hide Sum;
  }

  lemma ArriveStartOthers(s: State, a: Action)
    requires Inv(s) && Enabled(s, a) && a.ArriveStart?
    ensures MainOk(Step(s, a)) && WorkersOk(Step(s, a))
  {
    if s.start.arrived >= |s.workers| { StartFilled(s, a); }
    hide Arrivals;
    assert WorkerOk(s, s.workers[a.t], |s.ran[a.t]|);
  }

  lemma ArriveStartKeeps(s: State, a: Action)
    requires Inv(s) && Enabled(s, a) && a.ArriveStart?
    ensures Inv(Step(s, a))
  {
    ArriveStartArrivals(s, a);
    ArriveStartOthers(s, a);
    hide Arrivals, MainOk, WorkersOk, Step, Enabled;
  }

  lemma ArriveEndArrivals(s: State, a: Action)
    requires Inv(s) && Enabled(s, a) && a.ArriveEnd?
    ensures Arrivals(Step(s, a))
  {
    var t := Step(s, a);
    OneMoreWaits(s, a.t, t.workers[a.t]);
    if s.end.arrived >= |s.workers| { EndCompletes(s, t.workers); }
    hide Sum, WorkersOk;
  }

  /** The arrival that completes the phase finds everybody else waiting. */
  lemma EndFilled(s: State, a: Action)
    requires Arrivals(s) && Enabled(s, a) && a.ArriveEnd? && s.end.arrived >= |s.workers|
    ensures forall t :: 0 <= t < |s.workers| && t != a.t ==> s.workers[t] == WaitEnd(s.end.phase)
    ensures s.main == MainWaitEnd(s.end.phase)
  {
    var ws := Step(s, a).workers;
    OneMoreWaits(s, a.t, ws[a.t]);
    EndCompletes(s, ws);
    assert forall t :: 0 <= t < |s.workers| && t != a.t ==> s.workers[t] == ws[t];
    hide Sum;
  }

  lemma ArriveEndOthers(s: State, a: Action)
    requires Inv(s) && Enabled(s, a) && a.ArriveEnd?
    ensures MainOk(Step(s, a)) && WorkersOk(Step(s, a))
  {
    if s.end.arrived >= |s.workers| { EndFilled(s, a); }
    hide Arrivals;
    assert WorkerOk(s, s.workers[a.t], |s.ran[a.t]|);
  }

  lemma ArriveEndKeeps(s: State, a: Action)
    requires Inv(s) && Enabled(s, a) && a.ArriveEnd?
    ensures Inv(Step(s, a))
  {
    ArriveEndArrivals(s, a);
    ArriveEndOthers(s, a);
    hide Arrivals, MainOk, WorkersOk, Step, Enabled;
  }

  lemma MainArrivesStart(s: State, a: Action)
    requires Inv(s) && Enabled(s, a) && (a.MainArriveStart? || a.StopArrive?)
    ensures Inv(Step(s, a))
  {
    FullCount(s.workers, InStart(s.start.phase));
    if s.start.arrived >= |s.workers| { StartCompletes(s, s.workers); }
    hide Sum;
  }

  lemma MainArrivesEnd(s: State)
    requires Inv(s) && Enabled(s, MainArriveEnd)
    ensures Inv(Step(s, MainArriveEnd))
  {
    FullCount(s.workers, InEnd(s.end.phase));
    if s.end.arrived >= |s.workers| { EndCompletes(s, s.workers); }
    hide Sum;
  }

  lemma StepKeeps(s: State, a: Action)
    requires Inv(s) && Enabled(s, a)
    ensures Inv(Step(s, a))
  {
    hide Inv, Step, Enabled;
    match a {
      case ArriveStart(_) => ArriveStartKeeps(s, a);
      case ArriveEnd(_) => ArriveEndKeeps(s, a);
      case MainArriveStart => MainArrivesStart(s, a);
      case StopArrive => MainArrivesStart(s, a);
      case MainArriveEnd => MainArrivesEnd(s);
      case _ => if Passing(a) { PassingKeeps(s, a); } else { MainStepKeeps(s, a); }
    }
  }

  type Run = seq<Action>

  predicate CanRun(s: State, r: Run)
    decreases |r|
  {
    |r| == 0 || (Enabled(s, r[0]) && CanRun(Step(s, r[0]), r[1..]))
  }

  function Exec(s: State, r: Run): State
    requires CanRun(s, r)
    decreases |r|
  {
    if |r| == 0 then s else Exec(Step(s, r[0]), r[1..])
  }

  lemma {:induction false} RunKeeps(s: State, r: Run)
    requires Inv(s) && CanRun(s, r)
    ensures Inv(Exec(s, r))
    decreases |r|
  {
    hide Inv, Enabled, Step;
    if |r| > 0 {
      StepKeeps(s, r[0]);
      RunKeeps(Step(s, r[0]), r[1..]);
    }
  }

  // ------------------------------------------------------------ main properties

  function Called(a: Action): seq<nat> {
    match a
    case Run(f) => [f]
    case _ => []
  }

  /** The functions passed to run in a schedule, in order. */
  function Calls(r: Run): seq<nat> {
    if |r| == 0 then [] else Called(r[0]) + Calls(r[1..])
  }

  lemma {:induction false} CallsAreArguments(s: State, r: Run)
    requires CanRun(s, r)
    ensures Exec(s, r).calls == s.calls + Calls(r) && |Exec(s, r).workers| == |s.workers|
    decreases |r|
  {
    hide Step, Enabled, Calls, Called;
    CallsFirst(s.calls, r);
    if |r| > 0 {
      CallStep(s, r[0]);
      CallsAreArguments(Step(s, r[0]), r[1..]);
    }
  }

  lemma CallsFirst(before: seq<nat>, r: Run)
    ensures |r| == 0 ==> before + Calls(r) == before
    ensures |r| > 0 ==> before + Calls(r) == (before + Called(r[0])) + Calls(r[1..])
  {
    hide Called;
  }

  lemma CallStep(s: State, a: Action)
    requires Enabled(s, a)
    ensures Step(s, a).calls == s.calls + Called(a)
    ensures |Step(s, a).workers| == |s.workers|
  {
  }

  /** r, from the start with n workers, leads to s. */
  ghost predicate Leads(n: nat, r: Run, s: State) {
    CanRun(Init(n), r) && Exec(Init(n), r) == s
  }

  lemma ReachableInv(n: nat, r: Run, s: State)
    requires Leads(n, r, s)
    ensures Inv(s) && s.calls == Calls(r) && |s.workers| == n
  {
    InitInv(n);
    RunKeeps(Init(n), r);
    CallsAreArguments(Init(n), r);
  }

  /** A worker calls exactly the function last passed to run, and has called every
    * earlier one exactly once before. */
  lemma CallsInStep(n: nat, r: Run, s: State, t: nat)
    requires Leads(n, r, s) && Enabled(s, CallFn(t))
    ensures |Calls(r)| > 0 && s.fn == Calls(r)[|Calls(r)| - 1]
    ensures s.ran[t] == Calls(r)[..|Calls(r)| - 1] && Step(s, CallFn(t)).ran[t] == Calls(r)
  {
    ReachableInv(n, r, s);
    hide Arrivals, Leads;
    assert WorkerOk(s, s.workers[t], |s.ran[t]|);
    assert s.ran[t] <= s.calls;
  }

  /** fn_ and stop_ are written only while no worker can read them: nobody is
    * between the barriers. */
  lemma WritesAreSafe(n: nat, r: Run, s: State, a: Action, t: nat)
    requires Leads(n, r, s) && Enabled(s, a) && (a.Run? || a.Destroy?) && t < |s.workers|
    ensures |s.workers| == n
    ensures !s.workers[t].Past? && !s.workers[t].Running?
  {
    ReachableInv(n, r, s);
    hide Arrivals, Leads;
    assert WorkerOk(s, s.workers[t], |s.ran[t]|);
  }

  /** When run returns, every worker has called every function passed so far, once
    * each and in order, and none is still inside one. */
  lemma RunReturnsAfterAll(n: nat, r: Run, s: State, t: nat)
    requires Leads(n, r, s) && Enabled(s, Return) && t < |s.workers|
    ensures |s.workers| == n && t < |s.ran| && s.ran[t] == Calls(r)
    ensures !s.workers[t].Running? && !s.workers[t].Past?
  {
    ReachableInv(n, r, s);
    hide Arrivals, Leads;
    assert WorkerOk(s, s.workers[t], |s.ran[t]|);
    assert s.ran[t] <= s.calls;
  }

  lemma WaitersFillStart(s: State)
    requires forall t :: 0 <= t < |s.workers| ==> s.workers[t] == WaitStart(s.start.phase)
    ensures Sum(s.workers, InStart(s.start.phase)) == |s.workers|
  {
    SumAll(s.workers, InStart(s.start.phase), 1);
  }

  lemma WaitersFillEnd(s: State)
    requires forall t :: 0 <= t < |s.workers| ==> s.workers[t] == WaitEnd(s.end.phase)
    ensures Sum(s.workers, InEnd(s.end.phase)) == |s.workers|
  {
    SumAll(s.workers, InEnd(s.end.phase), 1);
  }

  predicate Blocked(s: State, w: Worker) {
    w == WaitStart(s.start.phase) || w == WaitEnd(s.end.phase) || w.Exited?
  }

  /** A step of main inside run or the destructor. */
  predicate ByMain(a: Action) {
    a.MainArriveStart? || a.MainPassStart? || a.MainArriveEnd? || a.Return? || a.StopArrive? || a.StopPass? || a.Joined?
  }

  /** A step of worker t. */
  predicate ByWorker(a: Action, t: nat) {
    (Passing(a) || a.ArriveStart? || a.ArriveEnd?) && a.t == t
  }

  lemma WorkerMoves(s: State, t: nat) returns (a: Action)
    requires Inv(s) && t < |s.workers| && !Blocked(s, s.workers[t])
    ensures Enabled(s, a) && ByWorker(a, t)
  {
    hide Arrivals;
    assert WorkerOk(s, s.workers[t], |s.ran[t]|);
    a := match s.workers[t]
      case AtStart => ArriveStart(t)
      case WaitStart(_) => PassStart(t)
      case Past => if s.stop then Quit(t) else CallFn(t)
      case Running => FnReturns(t)
      case AtEnd => ArriveEnd(t)
      case _ => PassEnd(t);
  }

  /** With every worker blocked, main is not: a round in progress, or destruction
    * once begun, always has a next step. */
  lemma NeverStuck(s: State) returns (a: Action)
    requires Inv(s) && !s.main.Ready? && !s.main.Gone?
    ensures Enabled(s, a) && !a.Run? && !a.Destroy?
  {
    if t :| 0 <= t < |s.workers| && !Blocked(s, s.workers[t]) {
      a := WorkerMoves(s, t);
    } else {
      a := MainMoves(s);
    }
  }

  lemma MainMoves(s: State) returns (a: Action)
    requires Inv(s) && !s.main.Ready? && !s.main.Gone?
    requires forall t :: 0 <= t < |s.workers| ==> Blocked(s, s.workers[t])
    ensures Enabled(s, a) && !a.Run? && !a.Destroy?
  {
    if s.main == MainWaitStart(s.start.phase) || s.main == StopWait(s.start.phase) {
      WaitersFillStart(s);
    }
    if s.main == MainWaitEnd(s.end.phase) {
      WaitersFillEnd(s);
    }
    a := match s.main
      case HasFn => MainArriveStart
      case MainWaitStart(_) => MainPassStart
      case MainAtEnd => MainArriveEnd
      case MainWaitEnd(_) => Return
      case StopSet => StopArrive
      case StopWait(_) => StopPass
      case _ => Joined;
  }

  // --------------------------------------------------------------- termination

  /** Steps a worker with r calls behind it still takes in the rounds called so far. */
  function WorkerLeft(w: Worker, r: nat, calls: nat): nat {
    var done := match w
      case AtStart => 6 * r
      case WaitStart(_) => 6 * r + 1
      case Past => 6 * r + 2
      case Running => if r == 0 then 0 else 6 * r - 3
      case AtEnd => if r == 0 then 0 else 6 * r - 2
      case WaitEnd(_) => if r == 0 then 0 else 6 * r - 1
      case Exited => 6 * r + 3;
    if done <= 6 * calls + 3 then 6 * calls + 3 - done else 0
  }

  function MainLeft(m: Main): nat {
    match m
    case Ready => 0
    case HasFn => 4
    case MainWaitStart(_) => 3
    case MainAtEnd => 2
    case MainWaitEnd(_) => 1
    case StopSet => 3
    case StopWait(_) => 2
    case Joining => 1
    case Gone => 0
  }

  ghost function WorkersLeft(s: State, n: nat): nat
    requires n <= |s.workers| && |s.ran| == |s.workers|
  {
    if n == 0 then 0 else WorkersLeft(s, n - 1) + LeftOf(s, n - 1)
  }

  ghost function LeftOf(s: State, t: nat): nat
    requires t < |s.workers| && |s.ran| == |s.workers|
  {
    WorkerLeft(s.workers[t], |s.ran[t]|, |s.calls|)
  }

  ghost function StepsLeft(s: State): nat
    requires |s.ran| == |s.workers|
  {
    WorkersLeft(s, |s.workers|) + MainLeft(s.main)
  }

  lemma {:induction false} WorkersLeftUpdate(s: State, u: State, n: nat, t: nat)
    requires n <= |s.workers| == |u.workers| == |s.ran| == |u.ran| && u.calls == s.calls
    requires forall i :: 0 <= i < n && i != t ==> u.workers[i] == s.workers[i] && u.ran[i] == s.ran[i]
    ensures t >= n ==> WorkersLeft(u, n) == WorkersLeft(s, n)
    ensures t < n ==> WorkersLeft(u, n) - LeftOf(u, t) == WorkersLeft(s, n) - LeftOf(s, t)
  {
    if n > 0 { WorkersLeftUpdate(s, u, n - 1, t); }
  }

  lemma WorkerShrinks(s: State, a: Action)
    requires WorkersOk(s) && Enabled(s, a) && (Passing(a) || a.ArriveStart? || a.ArriveEnd?)
    ensures var u := Step(s, a);
      |u.ran| == |u.workers| == |s.workers| && u.calls == s.calls && LeftOf(u, a.t) < LeftOf(s, a.t)
  {
    assert WorkerOk(s, s.workers[a.t], |s.ran[a.t]|) && s.ran[a.t] <= s.calls;
  }

  lemma OnlyWorkerMoves(s: State, a: Action)
    requires |s.ran| == |s.workers| && Enabled(s, a) && (Passing(a) || a.ArriveStart? || a.ArriveEnd?)
    ensures var u := Step(s, a);
      && a.t < |s.workers| && |u.ran| == |u.workers| == |s.workers| && u.calls == s.calls && u.main == s.main
      && forall i :: 0 <= i < |s.workers| && i != a.t ==> u.workers[i] == s.workers[i] && u.ran[i] == s.ran[i]
  {
  }

  lemma WorkerStepShrinks(s: State, a: Action)
    requires WorkersOk(s) && Enabled(s, a) && (Passing(a) || a.ArriveStart? || a.ArriveEnd?)
    ensures |Step(s, a).ran| == |Step(s, a).workers| && StepsLeft(Step(s, a)) < StepsLeft(s)
  {
    OnlyWorkerMoves(s, a);
    WorkerShrinks(s, a);
    hide WorkersOk, LeftOf, Step, Enabled, WorkersLeft;
    WorkersLeftUpdate(s, Step(s, a), |s.workers|, a.t);
  }

  lemma MainStepShrinks(s: State, a: Action)
    requires |s.ran| == |s.workers| && Enabled(s, a) && !(Passing(a) || a.ArriveStart? || a.ArriveEnd?)
    requires !a.Run? && !a.Destroy?
    ensures |Step(s, a).ran| == |Step(s, a).workers| && StepsLeft(Step(s, a)) < StepsLeft(s)
  {
    WorkersLeftUpdate(s, Step(s, a), |s.workers|, |s.workers|);
  }

  /** Every step but a new call or destruction brings the round nearer to its end. */
  lemma StepShrinks(s: State, a: Action)
    requires Inv(s) && Enabled(s, a) && !a.Run? && !a.Destroy?
    ensures |Step(s, a).ran| == |Step(s, a).workers| && StepsLeft(Step(s, a)) < StepsLeft(s)
  {
    hide Arrivals, MainOk, Enabled, Step, StepsLeft;
    if Passing(a) || a.ArriveStart? || a.ArriveEnd? {
      WorkerStepShrinks(s, a);
    } else {
      MainStepShrinks(s, a);
    }
  }

  lemma WorkersOf(s: State)
    requires Inv(s)
    ensures |s.ran| == |s.workers|
  {
  }

  /** Without further calls a run is bounded. */
  lemma {:induction false} RunsAreBounded(s: State, r: Run)
    requires Inv(s) && CanRun(s, r) && forall i :: 0 <= i < |r| ==> !r[i].Run? && !r[i].Destroy?
    ensures Inv(Exec(s, r)) && |s.ran| == |s.workers| && |Exec(s, r).ran| == |Exec(s, r).workers|
    ensures |r| + StepsLeft(Exec(s, r)) <= StepsLeft(s)
    decreases |r|
  {
    WorkersOf(s);
    hide Inv, Step, Enabled, StepsLeft;
    if |r| > 0 {
      StepShrinks(s, r[0]);
      StepKeeps(s, r[0]);
      RunsAreBounded(Step(s, r[0]), r[1..]);
    }
  }

  /** Over any sequence of calls and any schedule: once no step but a new call is
    * possible, every worker has called every function once, in order; and if the
    * destructor has run, all of them have exited. */
  lemma RoundsComplete(n: nat, r: Run)
    requires CanRun(Init(n), r)
    requires forall a :: Enabled(Exec(Init(n), r), a) ==> a.Run? || a.Destroy?
    ensures var s := Exec(Init(n), r);
      && (s.main.Ready? || s.main.Gone?) && |s.ran| == |s.workers| == n
      && (forall t :: 0 <= t < n ==> s.ran[t] == Calls(r))
      && (s.main.Ready? ==> forall f :: Enabled(s, Run(f)))
      && (s.main.Gone? ==> forall t :: 0 <= t < n ==> s.workers[t].Exited?)
  {
    var s := Exec(Init(n), r);
    ReachableInv(n, r, s);
    if !s.main.Ready? && !s.main.Gone? {
      var a := NeverStuck(s);
    }
    FinishedRounds(s);
  }

  /** Nor does main wait in any other case: between calls, at a barrier that has not
    * completed the phase of this round, or for a worker that has not left. */
  lemma WhenMainWaits(n: nat, r: Run, s: State)
    requires Leads(n, r, s)
    ensures var k := |Calls(r)|;
      (forall a :: Enabled(s, a) ==> !ByMain(a)) <==>
        || s.main.Ready? || s.main.Gone?
        || (s.main.MainWaitStart? && s.start.phase + 1 == k) || (s.main.MainWaitEnd? && s.end.phase + 1 == k)
        || (s.main.StopWait? && s.start.phase == k)
        || (s.main.Joining? && exists t :: 0 <= t < |s.workers| && !s.workers[t].Exited?)
  {
    ReachableInv(n, r, s);
    hide Arrivals, WorkersOk, Leads;
    var a := match s.main
      case HasFn => MainArriveStart
      case MainWaitStart(_) => MainPassStart
      case MainAtEnd => MainArriveEnd
      case MainWaitEnd(_) => Return
      case StopSet => StopArrive
      case StopWait(_) => StopPass
      case _ => Joined;
    assert ByMain(a);
  }

  /** A worker waits in no other case than these: it has left its loop, or the barrier
    * it has arrived at has not completed the phase of its round. */
  lemma WhenWorkersWait(n: nat, r: Run, s: State, t: nat)
    requires Leads(n, r, s) && t < |s.workers|
    ensures |s.ran| == |s.workers| == n
    ensures (forall a :: Enabled(s, a) ==> !ByWorker(a, t)) <==>
      s.workers[t].Exited? || (s.workers[t].WaitStart? && s.start.phase == |s.ran[t]|) ||
      (s.workers[t].WaitEnd? && s.end.phase + 1 == |s.ran[t]|)
  {
    ReachableInv(n, r, s);
    hide Arrivals, MainOk, Leads;
    assert WorkerOk(s, s.workers[t], |s.ran[t]|);
    if !Blocked(s, s.workers[t]) { var a := WorkerMoves(s, t); }
  }

  lemma FinishedRounds(s: State)
    requires Inv(s) && (s.main.Ready? || s.main.Gone?)
    ensures |s.ran| == |s.workers| && forall t :: 0 <= t < |s.workers| ==> s.ran[t] == s.calls
    ensures s.main.Gone? ==> forall t :: 0 <= t < |s.workers| ==> s.workers[t].Exited?
  {
    hide Arrivals;
    forall t | 0 <= t < |s.workers| ensures s.ran[t] == s.calls {
      assert WorkerOk(s, s.workers[t], |s.ran[t]|) && s.ran[t] <= s.calls;
    }
  }
}

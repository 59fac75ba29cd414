/** `cpp11::ReadWriteLock` of 07_readersWriters.cpp: a mutex, one condition variable
  * for readers and writers alike, notifications under the mutex, and spurious
  * wakeups. Each thread locks and unlocks a given number of times. */
module ReadWriteLock {
  import opened Sums

  /** `Using` holds the read-write lock but not the mutex; the spots from `Entered`
    * on that are not `Using` hold the mutex. */
  datatype Spot = Outside | Checking | Asleep | Entered | Using | Leaving | MustNotify | Notified

  datatype Thread = Thread(writes: bool, at: Spot, left: nat)

  datatype State = State(mutex: bool, owner: nat, readers: int, writer: bool, threads: seq<Thread>)

  datatype Action =
    | Acquire(t: nat)
    | Sleep(t: nat)
    | Enter(t: nat)
    | Release(t: nat)
    | BeginUnlock(t: nat)
    | Update(t: nat)
    | NotifyAll(t: nat)
    | EndUnlock(t: nat)
    | SpuriousWake(t: nat)

  predicate IsAt(s: State, t: nat, at: Spot) {
    t < |s.threads| && s.threads[t].at == at
  }

  /** The wait predicate of lockRead or lockWrite. */
  predicate MayEnter(s: State, x: Thread) {
    if x.writes then !s.writer && s.readers == 0 else !s.writer
  }

  predicate Enabled(s: State, a: Action) {
    match a
    case Acquire(t) => IsAt(s, t, Outside) && s.threads[t].left > 0 && !s.mutex
    case Sleep(t) => IsAt(s, t, Checking) && !MayEnter(s, s.threads[t])
    case Enter(t) => IsAt(s, t, Checking) && MayEnter(s, s.threads[t])
    case Release(t) => IsAt(s, t, Entered)
    case BeginUnlock(t) => IsAt(s, t, Using) && !s.mutex
    case Update(t) => IsAt(s, t, Leaving)
    case NotifyAll(t) => IsAt(s, t, MustNotify)
    case EndUnlock(t) => IsAt(s, t, Notified)
    case SpuriousWake(t) => IsAt(s, t, Asleep)
  }

  function Move(s: State, t: nat, at: Spot): State
    requires t < |s.threads|
  {
    s.(threads := s.threads[t := s.threads[t].(at := at)])
  }

  function Wake(x: Thread): Thread {
    if x.at.Asleep? then x.(at := Outside) else x
  }

  function WakeAll(xs: seq<Thread>): seq<Thread> {
    seq(|xs|, t requires 0 <= t < |xs| => Wake(xs[t]))
  }

  function Step(s: State, a: Action): State
    requires Enabled(s, a)
  {
    match a
    case Acquire(t) => Move(s, t, Checking).(mutex := true, owner := t)
    case Sleep(t) => Move(s, t, Asleep).(mutex := false)
    case Enter(t) =>
      if s.threads[t].writes then Move(s, t, Entered).(writer := true)
      else Move(s, t, Entered).(readers := s.readers + 1)
    case Release(t) => Move(s, t, Using).(mutex := false)
    case BeginUnlock(t) => Move(s, t, Leaving).(mutex := true, owner := t)
    case Update(t) =>
      if s.threads[t].writes then Move(s, t, MustNotify).(writer := false)
      else Move(s, t, if s.readers - 1 == 0 then MustNotify else Notified).(readers := s.readers - 1)
    case NotifyAll(t) => s.(threads := WakeAll(s.threads[t := s.threads[t].(at := Notified)]))
    case EndUnlock(t) =>
      s.(threads := s.threads[t := Thread(s.threads[t].writes, Outside, Decrement(s.threads[t].left))], mutex := false)
    case SpuriousWake(t) => Move(s, t, Outside)
  }

  /** Threads, each a reader or a writer with a number of rounds. */
  function Init(kinds: seq<(bool, nat)>): State {
    State(false, 0, 0, false,
          seq(|kinds|, t requires 0 <= t < |kinds| => Thread(kinds[t].0, Outside, kinds[t].1)))
  }

  // ---------------------------------------------------------------- invariant

  predicate InMutex(at: Spot) {
    !at.Outside? && !at.Asleep? && !at.Using?
  }

  ghost predicate Mutex(s: State) {
    && (forall t :: 0 <= t < |s.threads| ==> (InMutex(s.threads[t].at) <==> s.mutex && s.owner == t))
    && (s.mutex ==> s.owner < |s.threads|)
  }

  predicate Inside(at: Spot) {
    at.Entered? || at.Using? || at.Leaving?
  }

  predicate Writing(x: Thread) {
    x.writes && Inside(x.at)
  }

  function Reads(x: Thread): nat { if !x.writes && Inside(x.at) then 1 else 0 }
  function Writes(x: Thread): nat { if Writing(x) then 1 else 0 }

  /** The fields count who is inside, and a writer is inside alone. */
  ghost predicate Fields(s: State) {
    && s.readers == Sum(s.threads, Reads)
    && Sum(s.threads, Writes) == (if s.writer then 1 else 0)
    && (s.writer ==> s.readers == 0)
    && (forall t :: 0 <= t < |s.threads| && s.threads[t].left == 0 ==> s.threads[t].at.Outside?)
  }

  ghost predicate NotifyComes(s: State) {
    s.mutex && s.owner < |s.threads| && s.threads[s.owner].at.MustNotify?
  }

  /** A sleeper whose condition holds is about to be woken. */
  ghost predicate NoStranded(s: State) {
    forall t :: 0 <= t < |s.threads| && s.threads[t].at.Asleep? && MayEnter(s, s.threads[t]) ==> NotifyComes(s)
  }

  ghost predicate Inv(s: State) {
    Mutex(s) && Fields(s) && NoStranded(s)
  }

  lemma InitInv(kinds: seq<(bool, nat)>)
    ensures Inv(Init(kinds))
  {
    SumAll(Init(kinds).threads, Reads, 0);
    SumAll(Init(kinds).threads, Writes, 0);
  }

  lemma {:induction false} WakingChangesNobodyInside(xs: seq<Thread>)
    ensures Sum(WakeAll(xs), Reads) == Sum(xs, Reads) && Sum(WakeAll(xs), Writes) == Sum(xs, Writes)
  {
    if |xs| > 0 {
      WakingChangesNobodyInside(xs[..|xs| - 1]);
      assert WakeAll(xs)[..|xs| - 1] == WakeAll(xs[..|xs| - 1]);
    }
  }

  lemma MutexKept(s: State, a: Action)
    requires Mutex(s) && Enabled(s, a)
    ensures Mutex(Step(s, a))
  {
  }

  lemma Counts(s: State, t: nat, x: Thread)
    requires t < |s.threads|
    ensures Sum(s.threads[t := x], Reads) + Reads(s.threads[t]) == Sum(s.threads, Reads) + Reads(x)
    ensures Sum(s.threads[t := x], Writes) + Writes(s.threads[t]) == Sum(s.threads, Writes) + Writes(x)
    ensures Reads(s.threads[t]) <= Sum(s.threads, Reads) && Writes(s.threads[t]) <= Sum(s.threads, Writes)
  {
    SumUpdate(s.threads, Reads, t, x);
    SumUpdate(s.threads, Writes, t, x);
    SumAtLeast(s.threads, Reads, t);
    SumAtLeast(s.threads, Writes, t);
  }

  predicate Changes(a: Action) {
    a.Enter? || a.Update?
  }

  /** Entering and leaving change the fields and the counts together. */
  lemma ChangeFields(s: State, a: Action)
    requires Fields(s) && Enabled(s, a) && Changes(a)
    ensures Fields(Step(s, a))
  {
    Counts(s, a.t, Step(s, a).threads[a.t]);
    hide Sum;
  }

  lemma SameFields(s: State, a: Action)
    requires Fields(s) && Enabled(s, a) && !Changes(a) && !a.NotifyAll?
    ensures Fields(Step(s, a))
  {
    Counts(s, a.t, Step(s, a).threads[a.t]);
    hide Sum;
  }

  lemma NotifyFields(s: State, a: Action)
    requires Fields(s) && Enabled(s, a) && a.NotifyAll?
    ensures Fields(Step(s, a))
  {
    var x := s.threads[a.t].(at := Notified);
    Counts(s, a.t, x);
    WakingChangesNobodyInside(s.threads[a.t := x]);
    hide Sum;
  }

  lemma FieldsKept(s: State, a: Action)
    requires Fields(s) && Enabled(s, a)
    ensures Fields(Step(s, a))
  {
    hide *;
    if a.NotifyAll? {
      NotifyFields(s, a);
    } else if Changes(a) {
      ChangeFields(s, a);
    } else {
      SameFields(s, a);
    }
  }

  lemma NoStrandedKept(s: State, a: Action)
    requires Inv(s) && Enabled(s, a)
    ensures NoStranded(Step(s, a))
  {
    if a.Update? { Counts(s, a.t, s.threads[a.t]); }
    hide Sum;
  }

  lemma StepKeeps(s: State, a: Action)
    requires Inv(s) && Enabled(s, a)
    ensures Inv(Step(s, a))
  {
    MutexKept(s, a);
    FieldsKept(s, a);
    NoStrandedKept(s, a);
    hide Mutex, Fields, NoStranded, Step, Enabled;
  }

  // ------------------------------------------------------------ main properties

  /** A writer inside excludes every other thread. */
  lemma WriterIsAlone(s: State, t: nat, u: nat)
    requires Inv(s) && t < |s.threads| && u < |s.threads| && t != u
    requires Writing(s.threads[t])
    ensures !Inside(s.threads[u].at)
  {
    var x := Thread(true, Outside, 0);
    Counts(s, t, x);
    Counts(s.(threads := s.threads[t := x]), u, x);
    hide Sum;
  }

  /** Thread u keeps thread t out: a reader waits for a writer inside, a writer for
    * anybody inside. */
  predicate Blocks(s: State, t: nat, u: nat) {
    t < |s.threads| && u < |s.threads| && u != t &&
    if s.threads[t].writes then Inside(s.threads[u].at) else Writing(s.threads[u])
  }

  lemma MayEnterIff(s: State, t: nat)
    requires Fields(s) && t < |s.threads| && !Inside(s.threads[t].at)
    ensures MayEnter(s, s.threads[t]) <==> forall u: nat :: !Blocks(s, t, u)
  {
    forall u: nat | Blocks(s, t, u) ensures Sum(s.threads, Reads) + Sum(s.threads, Writes) > 0 {
      SumAtLeast(s.threads, Reads, u);
      SumAtLeast(s.threads, Writes, u);
    }
    forall u: nat | Blocks(s, t, u) && !s.threads[t].writes ensures s.writer { SumAtLeast(s.threads, Writes, u); }
    if s.writer {
      var u := SumWitness(s.threads, Writes);
      assert Blocks(s, t, u);
    } else if s.threads[t].writes && s.readers > 0 {
      var u := SumWitness(s.threads, Reads);
      assert Blocks(s, t, u);
    }
  }

  /** A reader goes to sleep exactly if a writer is inside, a writer exactly if anybody
    * is; so readers share the lock. */
  lemma SleepsIff(s: State, t: nat)
    requires Inv(s) && IsAt(s, t, Checking)
    ensures Enabled(s, Sleep(t)) <==> exists u: nat :: Blocks(s, t, u)
    ensures Enabled(s, Enter(t)) <==> forall u: nat :: !Blocks(s, t, u)
  {
    FieldsOf(s);
    MayEnterIff(s, t);
    hide Inv, Fields, Blocks, MayEnter;
  }

  /** A step of thread t that does not come out of the blue. */
  predicate ByThread(a: Action, t: nat) {
    !a.SpuriousWake? && a.t == t
  }

  /** Nothing else holds a thread up but sleep and the mutex. */
  lemma WhenThreadsWait(s: State, t: nat)
    requires Inv(s) && t < |s.threads| && s.threads[t].left > 0
    ensures (forall a :: Enabled(s, a) ==> !ByThread(a, t)) <==>
      s.threads[t].at.Asleep? ||
      ((s.threads[t].at.Outside? || s.threads[t].at.Using?) && exists u: nat :: u < |s.threads| && u != t && InMutex(s.threads[u].at))
  {
    var x := s.threads[t];
    if s.mutex { assert InMutex(s.threads[s.owner].at); }
    var a := match x.at
      case Outside => Acquire(t)
      case Checking => if MayEnter(s, x) then Enter(t) else Sleep(t)
      case Entered => Release(t)
      case Using => BeginUnlock(t)
      case Leaving => Update(t)
      case MustNotify => NotifyAll(t)
      case _ => EndUnlock(t);
    assert ByThread(a, t);
    hide Fields, NoStranded;
  }

  /** While any thread has a round to go, some step other than a spurious wakeup is
    * possible. */
  lemma NeverStuck(s: State, t: nat) returns (a: Action)
    requires Inv(s) && t < |s.threads| && s.threads[t].left > 0
    ensures Enabled(s, a) && !a.SpuriousWake?
  {
    if s.mutex {
      var o := s.owner;
      assert InMutex(s.threads[o].at);
      a := match s.threads[o].at
        case Checking => if MayEnter(s, s.threads[o]) then Enter(o) else Sleep(o)
        case Entered => Release(o)
        case Leaving => Update(o)
        case MustNotify => NotifyAll(o)
        case _ => EndUnlock(o);
    } else {
      assert !InMutex(s.threads[t].at);
      if s.threads[t].at.Outside? {
        a := Acquire(t);
      } else if s.threads[t].at.Using? {
        a := BeginUnlock(t);
      } else {
        assert s.threads[t].at.Asleep?;
        var u := SomebodyUses(s);
        a := BeginUnlock(u);
      }
    }
  }

  /** Whoever a sleeper waits for is in the read-write lock and can leave it. */
  lemma SomebodyUses(s: State) returns (u: nat)
    requires Inv(s) && !s.mutex && (s.writer || s.readers != 0)
    ensures IsAt(s, u, Using)
  {
    if s.writer {
      u := SumWitness(s.threads, Writes);
    } else {
      u := SumWitness(s.threads, Reads);
    }
    assert !InMutex(s.threads[u].at);
  }

  // ---------------------------------------------------------------- termination

  /** Unlocks still to notify. */
  function Rounds(x: Thread): nat {
    if x.at.Notified? then Decrement(x.left) else x.left
  }

  /** Steps to the end of its rounds if it never has to sleep again. */
  function Path(x: Thread): nat {
    var done := match x.at
      case Outside => 0
      case Checking => 1
      case Asleep => 2
      case Entered => 3
      case Using => 4
      case Leaving => 5
      case MustNotify => 6
      case Notified => 7;
    if x.left == 0 then 0 else 8 * x.left - done
  }

  /** A wakeup costs two steps, and each notify_all may wake everybody. */
  function StepsLeft(s: State): nat {
    Sum(s.threads, Rounds) * (2 * |s.threads| + 1) + Sum(s.threads, Path)
  }

  lemma {:induction false} WakingCosts(xs: seq<Thread>)
    ensures Sum(WakeAll(xs), Path) <= Sum(xs, Path) + 2 * |xs|
    ensures Sum(WakeAll(xs), Rounds) == Sum(xs, Rounds)
  {
    if |xs| > 0 {
      WakingCosts(xs[..|xs| - 1]);
      assert WakeAll(xs)[..|xs| - 1] == WakeAll(xs[..|xs| - 1]);
    }
  }

  lemma Product(r: nat, q: nat, k: nat)
    requires r <= q
    ensures r * k + (q - r) * k == q * k && (q - r) * k >= 0
    ensures r < q ==> r * k + k <= q * k
  {
    var d := q - r;
    assert q * k == r * k + d * k;
    if r < q { assert d * k == (d - 1) * k + k; }
  }

  lemma StepShrinks(s: State, a: Action)
    requires Inv(s) && Enabled(s, a) && !a.SpuriousWake?
    ensures StepsLeft(Step(s, a)) < StepsLeft(s)
  {
    FieldsOf(s);
    hide *;
    if a.NotifyAll? { NotifyShrinks(s, a); } else { MoveShrinks(s, a); }
  }

  lemma FieldsOf(s: State)
    requires Inv(s)
    ensures Fields(s)
  {
  }

  lemma OneMoves(s: State, a: Action)
    requires Fields(s) && Enabled(s, a) && !a.SpuriousWake? && !a.NotifyAll?
    ensures var t := Step(s, a);
      && a.t < |s.threads| == |t.threads| && t.threads == s.threads[a.t := t.threads[a.t]]
      && Rounds(t.threads[a.t]) <= Rounds(s.threads[a.t]) && Path(t.threads[a.t]) < Path(s.threads[a.t])
  {
    hide Sum;
  }

  lemma MoveShrinks(s: State, a: Action)
    requires Fields(s) && Enabled(s, a) && !a.SpuriousWake? && !a.NotifyAll?
    ensures StepsLeft(Step(s, a)) < StepsLeft(s)
  {
    hide Fields, Enabled, Step, Path, Rounds, Sum;
    OneMoves(s, a);
    var t := Step(s, a);
    SumUpdate(s.threads, Rounds, a.t, t.threads[a.t]);
    SumUpdate(s.threads, Path, a.t, t.threads[a.t]);
    Product(Sum(t.threads, Rounds), Sum(s.threads, Rounds), 2 * |s.threads| + 1);
  }

  /** A notify_all finishes one unlock and sends every sleeper back to the start. */
  lemma NotifyMoves(s: State, a: Action)
    requires Fields(s) && Enabled(s, a) && a.NotifyAll?
    ensures a.t < |s.threads|
    ensures var x := s.threads[a.t].(at := Notified);
      && Step(s, a).threads == WakeAll(s.threads[a.t := x])
      && Rounds(x) < Rounds(s.threads[a.t]) && Path(x) < Path(s.threads[a.t])
  {
    hide Sum, WakeAll;
  }

  lemma NotifyShrinks(s: State, a: Action)
    requires Fields(s) && Enabled(s, a) && a.NotifyAll?
    ensures StepsLeft(Step(s, a)) < StepsLeft(s)
  {
    hide Fields, Enabled, Step, Sum, Rounds, Path;
    NotifyMoves(s, a);
    var x := s.threads[a.t].(at := Notified);
    SumUpdate(s.threads, Rounds, a.t, x);
    SumUpdate(s.threads, Path, a.t, x);
    WakingCosts(s.threads[a.t := x]);
    Product(Sum(Step(s, a).threads, Rounds), Sum(s.threads, Rounds), 2 * |s.threads| + 1);
  }

  type Run = seq<Action>

  predicate CanRun(s: State, r: Run)
    decreases |r|
  {
    |r| == 0 || (Enabled(s, r[0]) && CanRun(Step(s, r[0]), r[1..]))
  }

  function Exec(s: State, r: Run): State
    requires CanRun(s, r)
    decreases |r|
  {
    if |r| == 0 then s else Exec(Step(s, r[0]), r[1..])
  }

  predicate NoSpurious(r: Run) {
    forall k :: 0 <= k < |r| ==> !r[k].SpuriousWake?
  }

  lemma {:induction false} RunKeeps(s: State, r: Run)
    requires Inv(s) && CanRun(s, r)
    ensures Inv(Exec(s, r))
    ensures NoSpurious(r) ==> |r| + StepsLeft(Exec(s, r)) <= StepsLeft(s)
    decreases |r|
  {
    hide Inv, Enabled, Step, StepsLeft;
    if |r| > 0 {
      StepKeeps(s, r[0]);
      if NoSpurious(r) { StepShrinks(s, r[0]); }
      RunKeeps(Step(s, r[0]), r[1..]);
    }
  }

  lemma SleepersWait(s: State, t: nat)
    requires Inv(s) && !s.mutex && t < |s.threads| && s.threads[t].at.Asleep?
    ensures exists u: nat :: Blocks(s, t, u)
  {
    MayEnterIff(s, t);
    hide Fields, Blocks;
  }

  /** In every reachable state: with the mutex free a reader sleeps only while a writer
    * is inside and a writer only while somebody is, a writer inside is alone, and
    * `readers` counts the readers inside. */
  lemma LockIsSafe(kinds: seq<(bool, nat)>, r: Run)
    requires CanRun(Init(kinds), r)
    ensures var s := Exec(Init(kinds), r);
      && (!s.mutex ==> forall t: nat :: t < |s.threads| && s.threads[t].at.Asleep? ==> exists u: nat :: Blocks(s, t, u))
      && (forall t, u :: 0 <= t < |s.threads| && 0 <= u < |s.threads| && t != u && Writing(s.threads[t]) ==>
            !Inside(s.threads[u].at))
      && s.readers == Sum(s.threads, Reads)
  {
    InitInv(kinds);
    RunKeeps(Init(kinds), r);
    var s := Exec(Init(kinds), r);
    forall t, u | 0 <= t < |s.threads| && 0 <= u < |s.threads| && t != u && Writing(s.threads[t])
      ensures !Inside(s.threads[u].at)
    {
      WriterIsAlone(s, t, u);
    }
    forall t: nat | !s.mutex && t < |s.threads| && s.threads[t].at.Asleep? ensures exists u: nat :: Blocks(s, t, u) {
      SleepersWait(s, t);
    }
    hide Sum, Blocks, NoStranded, Mutex;
  }

  // ------------------------------------------------------------- rounds and sharing

  /** How often thread t has used the lock in a run, up to giving it back. */
  function Uses(r: Run, t: nat): nat {
    if |r| == 0 then 0 else (if r[0] == BeginUnlock(t) then 1 else 0) + Uses(r[1..], t)
  }

  /** Uses still to come. */
  function Due(x: Thread): nat {
    if x.at.Leaving? || x.at.MustNotify? || x.at.Notified? then Decrement(x.left) else x.left
  }

  lemma UseStep(s: State, a: Action, t: nat)
    requires Fields(s) && Enabled(s, a) && t < |s.threads|
    ensures var u := Step(s, a);
      && |u.threads| == |s.threads| && u.threads[t].writes == s.threads[t].writes
      && Due(u.threads[t]) + (if a == BeginUnlock(t) then 1 else 0) == Due(s.threads[t])
  {
    hide Sum;
  }

  lemma ThreadsKept(s: State, a: Action)
    requires Enabled(s, a)
    ensures |Step(s, a).threads| == |s.threads|
  {
  }

  lemma {:induction false} ThreadCount(s: State, r: Run)
    requires CanRun(s, r)
    ensures |Exec(s, r).threads| == |s.threads|
    decreases |r|
  {
    if |r| > 0 {
      ThreadsKept(s, r[0]);
      hide Step, Enabled;
      ThreadCount(Step(s, r[0]), r[1..]);
    }
  }

  lemma {:induction false} UsesCount(s: State, r: Run, t: nat)
    requires Inv(s) && CanRun(s, r) && t < |s.threads|
    ensures var u := Exec(s, r);
      && |u.threads| == |s.threads| && u.threads[t].writes == s.threads[t].writes
      && Due(u.threads[t]) + Uses(r, t) == Due(s.threads[t])
    decreases |r|
  {
    hide Inv, Enabled, Step, Due, Fields;
    if |r| > 0 {
      FieldsOf(s);
      UseStep(s, r[0], t);
      StepKeeps(s, r[0]);
      UsesCount(Step(s, r[0]), r[1..], t);
    }
  }

  lemma {:induction false} RunAppend(s: State, r: Run, q: Run)
    requires CanRun(s, r) && CanRun(Exec(s, r), q)
    ensures CanRun(s, r + q) && Exec(s, r + q) == Exec(Exec(s, r), q)
    decreases |r|
  {
    if |r| == 0 {
      assert r + q == q;
    } else {
      assert (r + q)[1..] == r[1..] + q;
      RunAppend(Step(s, r[0]), r[1..], q);
    }
  }

  /** With the mutex free and no writer inside, a reader gets in without anybody else
    * having to move, however many readers are inside. */
  lemma ReaderJoins(s: State, t: nat)
    requires Fields(s) && IsAt(s, t, Outside) && !s.threads[t].writes && s.threads[t].left > 0
    requires !s.mutex && forall u :: 0 <= u < |s.threads| ==> !Writing(s.threads[u])
    ensures CanRun(s, [Acquire(t), Enter(t), Release(t)])
    ensures var v := Exec(s, [Acquire(t), Enter(t), Release(t)]);
      v.threads == s.threads[t := s.threads[t].(at := Using)] && !v.mutex
  {
    if s.writer { var u := SumWitness(s.threads, Writes); }
    hide Fields;
    var s1 := Step(s, Acquire(t));
    var s2 := Step(s1, Enter(t));
    var s3 := Step(s2, Release(t));
    assert s3.threads == s.threads[t := s.threads[t].(at := Using)];
    assert [Acquire(t), Enter(t), Release(t)][1..] == [Enter(t), Release(t)] && [Enter(t), Release(t)][1..] == [Release(t)];
    assert [Release(t)][1..] == [];
    assert CanRun(s3, []) && Exec(s3, []) == s3;
    assert CanRun(s2, [Release(t)]) && Exec(s2, [Release(t)]) == s3;
    assert CanRun(s1, [Enter(t), Release(t)]) && Exec(s1, [Enter(t), Release(t)]) == s3;
  }

  /** The first k threads, as far as they are readers, use the lock; the others are
    * where they began. */
  ghost predicate ReadersUse(s: State, kinds: seq<(bool, nat)>, k: nat) {
    && |s.threads| == |kinds| && !s.mutex
    && forall t :: 0 <= t < |kinds| ==>
         s.threads[t] == Thread(kinds[t].0, if t < k && !kinds[t].0 then Using else Outside, kinds[t].1)
  }

  lemma NextReads(kinds: seq<(bool, nat)>, s: State, v: State, k: nat)
    requires k < |kinds| && !kinds[k].0 && ReadersUse(s, kinds, k)
    requires v.threads == s.threads[k := s.threads[k].(at := Using)] && !v.mutex
    ensures ReadersUse(v, kinds, k + 1)
  {
  }

  /** All readers can be inside at once, however many there are. */
  lemma {:induction false} AllReadAtOnce(kinds: seq<(bool, nat)>, k: nat) returns (r: Run)
    requires k <= |kinds| && forall t :: 0 <= t < |kinds| && !kinds[t].0 ==> kinds[t].1 > 0
    ensures CanRun(Init(kinds), r) && ReadersUse(Exec(Init(kinds), r), kinds, k)
  {
    if k == 0 {
      r := [];
    } else {
      r := AllReadAtOnce(kinds, k - 1);
      if !kinds[k - 1].0 {
        var s := Exec(Init(kinds), r);
        InitInv(kinds);
        RunKeeps(Init(kinds), r);
        FieldsOf(s);
        hide Inv, Step, Enabled, CanRun, Exec, Init, Fields;
        ReaderJoins(s, k - 1);
        var q := [Acquire(k - 1), Enter(k - 1), Release(k - 1)];
        NextReads(kinds, s, Exec(s, q), k - 1);
        hide ReadersUse;
        RunAppend(Init(kinds), r, q);
        r := r + q;
      }
    }
  }

  /** For any mix of readers and writers: runs without spurious wakeups are bounded,
    * and a run stops only when every thread has had the lock as often as it wanted. */
  lemma EveryRunCompletes(kinds: seq<(bool, nat)>, r: Run)
    requires CanRun(Init(kinds), r)
    ensures NoSpurious(r) ==> |r| <= StepsLeft(Init(kinds))
    ensures var s := Exec(Init(kinds), r);
      && |s.threads| == |kinds| && (forall t :: 0 <= t < |kinds| ==> s.threads[t].writes == kinds[t].0)
      && (forall t :: 0 <= t < |kinds| ==> Uses(r, t) <= kinds[t].1)
      && ((forall a :: Enabled(s, a) ==> a.SpuriousWake?) ==>
            forall t :: 0 <= t < |kinds| ==> s.threads[t].left == 0 && Uses(r, t) == kinds[t].1)
  {
    hide *;
    InitInv(kinds);
    RunKeeps(Init(kinds), r);
    var s := Exec(Init(kinds), r);
    if t :| 0 <= t < |s.threads| && s.threads[t].left > 0 {
      if forall a :: Enabled(s, a) ==> a.SpuriousWake? { var a := NeverStuck(s, t); }
    }
    ThreadsOf(kinds);
    ThreadCount(Init(kinds), r);
    forall t | 0 <= t < |kinds|
      ensures s.threads[t].writes == kinds[t].0 && Uses(r, t) <= kinds[t].1
      ensures s.threads[t].left == 0 ==> Uses(r, t) == kinds[t].1
    {
      UsesCount(Init(kinds), r, t);
      AtStart(kinds, t);
      NothingDue(s.threads[t]);
    }
  }

  lemma ThreadsOf(kinds: seq<(bool, nat)>)
    ensures |Init(kinds).threads| == |kinds|
  {
  }

  lemma AtStart(kinds: seq<(bool, nat)>, t: nat)
    requires t < |kinds|
    ensures Init(kinds).threads[t].writes == kinds[t].0 && Due(Init(kinds).threads[t]) == kinds[t].1
  {
  }

  lemma NothingDue(x: Thread)
    ensures x.left == 0 ==> Due(x) == 0
  {
  }
}

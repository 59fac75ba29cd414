/** Parent tasks that submit children to their own pool and block on them
  * (case2_parallelismErosion.cpp): when does the pool deadlock? Workers take items
  * strictly in the order of acceptance, as the pool's queue does. */
module NestedWait {
  import opened Counting
  import opened Sums

  datatype Item = Parent(p: nat) | Child(p: nat, i: nat)

  /** A worker and the position, in the order of acceptance, of what it works on. */
  datatype Worker =
    | Free
    | Submitting(n: nat, j: nat)
    | Waiting(n: nat, j: nat)
    | InChild(n: nat)

  /** `parents` tasks with `kids` children each; the main thread has submitted
    * `submitted` of them. Items before `head` have been dequeued. */
  datatype State = State(parents: nat, kids: nat, submitted: nat, accepted: seq<Item>, head: nat,
                         workers: seq<Worker>, finished: set<nat>)

  datatype Action =
    | Submit
    | Dequeue(w: nat)
    | SubmitChild(w: nat)
    | StartWaiting(w: nat)
    | GetFuture(w: nat)
    | ParentReturns(w: nat)
    | ChildReturns(w: nat)

  /** The future of child i of parent p is ready. */
  predicate Ready(s: State, p: nat, i: nat) {
    exists k: nat :: k < |s.accepted| && k in s.finished && s.accepted[k] == Child(p, i)
  }

  predicate Enabled(s: State, a: Action) {
    match a
    case Submit => s.submitted < s.parents
    case Dequeue(w) => w < |s.workers| && s.workers[w].Free? && s.head < |s.accepted|
    case SubmitChild(w) =>
      w < |s.workers| && s.workers[w].Submitting? && s.workers[w].n < |s.accepted| && s.workers[w].j < s.kids
    case StartWaiting(w) => w < |s.workers| && s.workers[w].Submitting? && s.workers[w].j >= s.kids
    case GetFuture(w) =>
      && w < |s.workers| && s.workers[w].Waiting? && s.workers[w].n < |s.accepted| && s.workers[w].j < s.kids
      && Ready(s, s.accepted[s.workers[w].n].p, s.workers[w].j)
    case ParentReturns(w) => w < |s.workers| && s.workers[w].Waiting? && s.workers[w].j >= s.kids
    case ChildReturns(w) => w < |s.workers| && s.workers[w].InChild?
  }

  function Step(s: State, a: Action): State
    requires Enabled(s, a)
  {
    match a
    case Submit => s.(submitted := s.submitted + 1, accepted := s.accepted + [Parent(s.submitted)])
    case Dequeue(w) =>
      var at := if s.accepted[s.head].Parent? then Submitting(s.head, 0) else InChild(s.head);
      s.(head := s.head + 1, workers := s.workers[w := at])
    case SubmitChild(w) =>
      var x := s.workers[w];
      s.(accepted := s.accepted + [Child(s.accepted[x.n].p, x.j)], workers := s.workers[w := Submitting(x.n, x.j + 1)])
    case StartWaiting(w) => s.(workers := s.workers[w := Waiting(s.workers[w].n, 0)])
    case GetFuture(w) => s.(workers := s.workers[w := Waiting(s.workers[w].n, s.workers[w].j + 1)])
    case ParentReturns(w) => s.(workers := s.workers[w := Free], finished := s.finished + {s.workers[w].n})
    case ChildReturns(w) => s.(workers := s.workers[w := Free], finished := s.finished + {s.workers[w].n})
  }

  function Init(workers: nat, parents: nat, kids: nat): State {
    State(parents, kids, 0, [], 0, seq(workers, _ => Free), {})
  }

  type Run = seq<Action>

  predicate CanRun(s: State, r: Run)
    decreases |r|
  {
    |r| == 0 || (Enabled(s, r[0]) && CanRun(Step(s, r[0]), r[1..]))
  }

  function Exec(s: State, r: Run): State
    requires CanRun(s, r)
    decreases |r|
  {
    if |r| == 0 then s else Exec(Step(s, r[0]), r[1..])
  }

  // ---------------------------------------------------------------- invariant

  predicate Holds(w: Worker, n: nat) {
    !w.Free? && w.n == n
  }

  ghost predicate Items(s: State) {
    && s.submitted <= s.parents && s.head <= |s.accepted|
    && (forall i, j :: 0 <= i < j < |s.accepted| ==> s.accepted[i] != s.accepted[j])
    && (forall p: nat :: Parent(p) in s.accepted <==> p < s.submitted)
    && (|s.accepted| > 0 ==> s.accepted[0].Parent?)
    && (forall k :: 0 <= k < |s.accepted| && s.accepted[k].Child? ==> Begun(s, s.accepted[k].p))
  }

  /** Parent p has been dequeued. */
  ghost predicate Begun(s: State, p: nat) {
    Parent(p) in s.accepted[..if s.head <= |s.accepted| then s.head else 0]
  }

  /** Every dequeued item is finished or on exactly one worker. */
  ghost predicate Runners(s: State) {
    && (forall n :: n in s.finished ==> n < s.head)
    && (forall w :: 0 <= w < |s.workers| && !s.workers[w].Free? ==>
          s.workers[w].n < s.head && s.workers[w].n !in s.finished)
    && (forall v, w :: 0 <= v < w < |s.workers| && !s.workers[v].Free? ==> !Holds(s.workers[w], s.workers[v].n))
    && (forall n: nat :: n < s.head ==> Accounted(s, n))
  }

  ghost predicate Accounted(s: State, n: nat) {
    n in s.finished || exists w :: 0 <= w < |s.workers| && Holds(s.workers[w], n)
  }

  /** What a worker has done for its own item. */
  ghost predicate WorkerOk(s: State, w: Worker) {
    w.Free? ||
    (w.n < |s.accepted| &&
     var item := s.accepted[w.n];
     match w
     case Submitting(n, j) => item.Parent? && j <= s.kids && forall i: nat :: Child(item.p, i) in s.accepted <==> i < j
     case Waiting(n, j) =>
       && item.Parent? && j <= s.kids && (forall i: nat :: Child(item.p, i) in s.accepted <==> i < s.kids)
       && forall i: nat :: i < j ==> Ready(s, item.p, i)
     case InChild(n) => item.Child?
     case Free => true)
  }

  /** A parent returns only after all its children have. */
  ghost predicate Served(s: State) {
    forall n, i: nat :: n in s.finished && n < |s.accepted| && s.accepted[n].Parent? && i < s.kids ==>
      Ready(s, s.accepted[n].p, i)
  }

  ghost predicate Inv(s: State) {
    && Items(s) && Runners(s) && Served(s)
    && forall w :: 0 <= w < |s.workers| ==> WorkerOk(s, s.workers[w])
  }

  lemma InitInv(workers: nat, parents: nat, kids: nat)
    ensures Inv(Init(workers, parents, kids))
  {
  }

  // ------------------------------------------------------------ what steps keep

  lemma SubmitItems(s: State)
    requires Items(s) && Enabled(s, Submit)
    ensures Items(Step(s, Submit))
  {
    var t := Step(s, Submit);
    assert t.accepted[..s.head] == s.accepted[..s.head];
    forall k | 0 <= k < |t.accepted| && t.accepted[k].Child? ensures Begun(t, t.accepted[k].p) {
      assert Begun(s, s.accepted[k].p);
    }
  }

  lemma ChildItems(s: State, a: Action)
    requires Inv(s) && Enabled(s, a) && a.SubmitChild?
    ensures Items(Step(s, a))
  {
    var t, x := Step(s, a), s.workers[a.w];
    assert WorkerOk(s, x);
    assert t.accepted[..s.head] == s.accepted[..s.head];
    assert s.accepted[..s.head][x.n] == Parent(s.accepted[x.n].p);
    forall k | 0 <= k < |t.accepted| && t.accepted[k].Child? ensures Begun(t, t.accepted[k].p) {
      assert k < |s.accepted| ==> Begun(s, s.accepted[k].p);
    }
  }

  lemma OtherItems(s: State, a: Action)
    requires Items(s) && Enabled(s, a) && !a.Submit? && !a.SubmitChild?
    ensures Items(Step(s, a))
  {
    var t := Step(s, a);
    forall k | 0 <= k < |t.accepted| && t.accepted[k].Child? ensures Begun(t, t.accepted[k].p) {
      assert Begun(s, s.accepted[k].p);
      assert s.accepted[..s.head] <= t.accepted[..t.head];
    }
  }

  lemma ItemsKept(s: State, a: Action)
    requires Inv(s) && Enabled(s, a)
    ensures Items(Step(s, a))
  {
    hide Items, Step, Runners, WorkerOk, Served;
    if a.Submit? {
      SubmitItems(s);
    } else if a.SubmitChild? {
      ChildItems(s, a);
    } else {
      OtherItems(s, a);
    }
  }

  lemma RunnersKept(s: State, a: Action)
    requires Items(s) && Runners(s) && Enabled(s, a)
    ensures Runners(Step(s, a))
  {
    var t := Step(s, a);
    assert a.Dequeue? ==> Holds(t.workers[a.w], s.head);
    forall n: nat | n < t.head ensures Accounted(t, n) {
      if n < s.head {
        assert Accounted(s, n);
        if v :| 0 <= v < |s.workers| && Holds(s.workers[v], n) { assert n in t.finished || Holds(t.workers[v], n); }
      }
    }
  }

  /** Another worker's item keeps what has been done for it. */
  lemma OtherWorkerKept(s: State, a: Action, w: nat)
    requires Inv(s) && Enabled(s, a) && w < |s.workers| && (a.Submit? || a.w != w)
    ensures WorkerOk(Step(s, a), s.workers[w])
  {
    var t, x := Step(s, a), s.workers[w];
    assert WorkerOk(s, x);
    if !x.Free? {
      var item := s.accepted[x.n];
      if a.SubmitChild? && item.Parent? {
        assert WorkerOk(s, s.workers[a.w]);
        assert s.workers[a.w].n != x.n && s.accepted[s.workers[a.w].n] != item;
      }
      forall i: nat | x.Waiting? && i < x.j ensures Ready(t, item.p, i) { ReadyStays(s, a, item.p, i); }
    }
  }

  lemma OwnWorkerKept(s: State, a: Action)
    requires Inv(s) && Enabled(s, a) && !a.Submit?
    ensures WorkerOk(Step(s, a), Step(s, a).workers[a.w])
  {
    var t, x := Step(s, a), s.workers[a.w];
    assert WorkerOk(s, x);
    if a.GetFuture? {
      var p := s.accepted[x.n].p;
      forall i: nat | i < x.j + 1 ensures Ready(t, p, i) { ReadyStays(s, a, p, i); }
    }
    if a.Dequeue? && s.accepted[s.head].Parent? { NoKidsYet(s); }
  }

  /** A parent still in the queue has submitted nothing. */
  lemma NoKidsYet(s: State)
    requires Items(s) && s.head < |s.accepted| && s.accepted[s.head].Parent?
    ensures forall i: nat :: Child(s.accepted[s.head].p, i) !in s.accepted
  {
    forall k | 0 <= k < |s.accepted| ensures s.accepted[k].Child? ==> s.accepted[k].p != s.accepted[s.head].p {}
  }

  lemma WorkersKept(s: State, a: Action)
    requires Inv(s) && Enabled(s, a)
    ensures forall w :: 0 <= w < |s.workers| ==> WorkerOk(Step(s, a), Step(s, a).workers[w])
  {
    var t := Step(s, a);
    forall w | 0 <= w < |s.workers| ensures WorkerOk(t, t.workers[w]) {
      if a.Submit? || a.w != w { OtherWorkerKept(s, a, w); } else { OwnWorkerKept(s, a); }
    }
  }

  lemma ReadyStays(s: State, a: Action, p: nat, i: nat)
    requires Enabled(s, a) && Ready(s, p, i)
    ensures Ready(Step(s, a), p, i)
  {
    var k: nat :| k < |s.accepted| && k in s.finished && s.accepted[k] == Child(p, i);
    var t := Step(s, a);
    assert k in t.finished && t.accepted[k] == s.accepted[k];
  }

  lemma ServedKept(s: State, a: Action)
    requires Inv(s) && Enabled(s, a)
    ensures Served(Step(s, a))
  {
    var t := Step(s, a);
    forall n, i: nat | n in t.finished && n < |t.accepted| && t.accepted[n].Parent? && i < t.kids
      ensures Ready(t, t.accepted[n].p, i)
    {
      if n !in s.finished { assert WorkerOk(s, s.workers[a.w]); }
      ReadyStays(s, a, t.accepted[n].p, i);
    }
  }

  lemma StepKeeps(s: State, a: Action)
    requires Inv(s) && Enabled(s, a)
    ensures Inv(Step(s, a)) && SameSizes(s, Step(s, a))
  {
    ItemsKept(s, a);
    RunnersKept(s, a);
    ServedKept(s, a);
    WorkersKept(s, a);
    hide Items, Runners, WorkerOk, Served;
  }

  /** The number of workers, parents and children never changes. */
  predicate SameSizes(s: State, t: State) {
    |t.workers| == |s.workers| && t.parents == s.parents && t.kids == s.kids
  }

  lemma {:induction false} RunKeeps(s: State, r: Run)
    requires Inv(s) && CanRun(s, r)
    ensures Inv(Exec(s, r)) && SameSizes(s, Exec(s, r))
    decreases |r|
  {
    hide Inv, Enabled, Step;
    if |r| > 0 {
      StepKeeps(s, r[0]);
      RunKeeps(Step(s, r[0]), r[1..]);
    }
  }

  // ------------------------------------------------------- every run is finite

  function ItemWork(kids: nat): Item -> nat {
    (item: Item) => if item.Parent? then 4 * kids + 3 else 2
  }

  function WorkerWork(kids: nat): Worker -> nat {
    (w: Worker) =>
      match w
      case Free => 0
      case Submitting(_, j) => (if j <= kids then 3 * (kids - j) else 0) + kids + 2
      case Waiting(_, j) => (if j <= kids then kids - j else 0) + 1
      case InChild(_) => 1
  }

  function Queue(s: State): seq<Item>
    requires s.head <= |s.accepted|
  {
    s.accepted[s.head..]
  }

  /** The work of k parents that the main thread has not submitted yet. */
  function Unsubmitted(k: nat, kids: nat): nat {
    if k == 0 then 0 else Unsubmitted(k - 1, kids) + 4 * kids + 4
  }

  /** The steps a run from here can still take. */
  function StepsLeft(s: State): nat
    requires s.head <= |s.accepted| && s.submitted <= s.parents
  {
    Unsubmitted(s.parents - s.submitted, s.kids) + Sum(Queue(s), ItemWork(s.kids)) + Sum(s.workers, WorkerWork(s.kids))
  }

  lemma {:induction false} SumFront<T>(x: T, xs: seq<T>, f: T -> nat)
    ensures Sum([x] + xs, f) == f(x) + Sum(xs, f)
  {
    if |xs| > 0 {
      assert ([x] + xs)[..|xs|] == [x] + xs[..|xs| - 1];
      SumFront(x, xs[..|xs| - 1], f);
    } else {
      assert [x] + xs == [x];
      assert Sum([], f) == 0;
    }
  }

  lemma SumBack<T>(xs: seq<T>, x: T, f: T -> nat)
    ensures Sum(xs + [x], f) == Sum(xs, f) + f(x)
  {
    assert (xs + [x])[..|xs|] == xs;
  }

  lemma QueueGrows(s: State, t: State, x: Item)
    requires s.head <= |s.accepted| && t.head == s.head && t.accepted == s.accepted + [x]
    ensures Sum(Queue(t), ItemWork(s.kids)) == Sum(Queue(s), ItemWork(s.kids)) + ItemWork(s.kids)(x)
  {
    assert Queue(t) == Queue(s) + [x];
    SumBack(Queue(s), x, ItemWork(s.kids));
  }

  lemma QueueShrinks(s: State, t: State)
    requires s.head < |s.accepted| && t.head == s.head + 1 && t.accepted == s.accepted
    ensures Sum(Queue(s), ItemWork(s.kids)) == ItemWork(s.kids)(s.accepted[s.head]) + Sum(Queue(t), ItemWork(s.kids))
  {
    assert Queue(s) == [s.accepted[s.head]] + Queue(t);
    SumFront(s.accepted[s.head], Queue(t), ItemWork(s.kids));
  }

  lemma SubmitShrinks(s: State)
    requires Items(s) && Enabled(s, Submit)
    ensures s.head <= |Step(s, Submit).accepted| && StepsLeft(Step(s, Submit)) < StepsLeft(s)
  {
    hide Sum;
    QueueGrows(s, Step(s, Submit), Parent(s.submitted));
  }

  lemma ChildShrinks(s: State, a: Action)
    requires Items(s) && Enabled(s, a) && a.SubmitChild?
    ensures s.head <= |Step(s, a).accepted| && StepsLeft(Step(s, a)) < StepsLeft(s)
  {
    hide Sum, Unsubmitted;
    var t := Step(s, a);
    QueueGrows(s, t, t.accepted[|s.accepted|]);
    SumUpdate(s.workers, WorkerWork(s.kids), a.w, t.workers[a.w]);
  }

  lemma DequeueShrinks(s: State, a: Action)
    requires Items(s) && Enabled(s, a) && a.Dequeue?
    ensures s.head < |s.accepted| && StepsLeft(Step(s, a)) < StepsLeft(s)
  {
    hide Sum, Unsubmitted;
    var t := Step(s, a);
    QueueShrinks(s, t);
    SumUpdate(s.workers, WorkerWork(s.kids), a.w, t.workers[a.w]);
  }

  lemma LocalShrinks(s: State, a: Action)
    requires Items(s) && Enabled(s, a) && !a.Submit? && !a.SubmitChild? && !a.Dequeue?
    ensures StepsLeft(Step(s, a)) < StepsLeft(s)
  {
    hide Sum, Unsubmitted, Ready;
    var t := Step(s, a);
    SumUpdate(s.workers, WorkerWork(s.kids), a.w, t.workers[a.w]);
  }

  lemma StepShrinks(s: State, a: Action)
    requires Inv(s) && Enabled(s, a)
    ensures Inv(Step(s, a)) && SameSizes(s, Step(s, a)) && StepsLeft(Step(s, a)) < StepsLeft(s)
  {
    StepKeeps(s, a);
    ItemsOf(s);
    ItemsOf(Step(s, a));
    hide Inv, Items, Step, StepsLeft, Enabled;
    if a.Submit? {
      SubmitShrinks(s);
    } else if a.SubmitChild? {
      ChildShrinks(s, a);
    } else if a.Dequeue? {
      DequeueShrinks(s, a);
    } else {
      LocalShrinks(s, a);
    }
  }

  /** No run from here is longer than StepsLeft. */
  lemma {:induction false} RunsAreFinite(s: State, r: Run)
    requires Inv(s) && CanRun(s, r)
    ensures Inv(Exec(s, r)) && SameSizes(s, Exec(s, r)) && |r| + StepsLeft(Exec(s, r)) <= StepsLeft(s)
    decreases |r|
  {
    ItemsOf(s);
    hide Inv, Items, Enabled, Step, StepsLeft;
    if |r| > 0 {
      StepShrinks(s, r[0]);
      RunsAreFinite(Step(s, r[0]), r[1..]);
    }
    ItemsOf(Exec(s, r));
  }

  lemma ItemsOf(s: State)
    requires Inv(s)
    ensures Items(s) && s.head <= |s.accepted| && s.submitted <= s.parents
  {
  }


  // ------------------------------------------------------ what stuck runs look like

  ghost predicate Stuck(s: State) {
    forall a :: !Enabled(s, a)
  }

  /** Everything has been submitted, taken and finished. */
  predicate Complete(s: State) {
    s.submitted == s.parents && s.head == |s.accepted| && forall w :: 0 <= w < |s.workers| ==> s.workers[w].Free?
  }

  /** A worker inside get() on a future that is not ready. */
  predicate Blocked(s: State, w: Worker) {
    && w.Waiting? && w.n < |s.accepted| && w.j < s.kids
    && !Ready(s, s.accepted[w.n].p, w.j)
  }

  ghost predicate Deadlocked(s: State) {
    s.submitted == s.parents && forall w :: 0 <= w < |s.workers| ==> Blocked(s, s.workers[w])
  }

  /** A pool stops moving exactly when everything is done or every single worker is
    * blocked on a child. */
  lemma StuckIffDoneOrDeadlocked(s: State)
    requires Inv(s)
    ensures Stuck(s) <==> Complete(s) || Deadlocked(s)
  {
    hide Ready, Runners, Served;
    if Stuck(s) {
      assert !Enabled(s, Submit);
      forall w | 0 <= w < |s.workers| ensures s.workers[w].Free? || Blocked(s, s.workers[w]) {
        WhenWorkersWait(s, w);
      }
      if w :| 0 <= w < |s.workers| && s.workers[w].Free? {
        assert !Enabled(s, Dequeue(w));
        forall v | 0 <= v < |s.workers| ensures s.workers[v].Free? {
          if !s.workers[v].Free? { NobodyWaitsForNothing(s, v); }
        }
      }
    }
  }

  /** The pool is work-conserving: a worker stands still in exactly two cases, when it
    * is free with nothing queued, and inside get() on a child that has not finished. */
  lemma WhenWorkersWait(s: State, w: nat)
    requires Inv(s) && w < |s.workers|
    ensures (forall a: Action :: !a.Submit? && a.w == w ==> !Enabled(s, a)) <==>
      (s.workers[w].Free? && s.head == |s.accepted|) || Blocked(s, s.workers[w])
  {
    assert WorkerOk(s, s.workers[w]);
    hide Ready, Served, Runners;
    var a := match s.workers[w]
      case Free => Dequeue(w)
      case Submitting(_, j) => if j < s.kids then SubmitChild(w) else StartWaiting(w)
      case Waiting(_, j) => if j < s.kids then GetFuture(w) else ParentReturns(w)
      case InChild(_) => ChildReturns(w);
    assert !a.Submit? && a.w == w;
  }

  /** With an empty queue and nobody else at work, no wait can be in vain. */
  lemma NobodyWaitsForNothing(s: State, v: nat)
    requires Inv(s) && v < |s.workers| && s.head == |s.accepted|
    requires forall w :: 0 <= w < |s.workers| ==> s.workers[w].Free? || s.workers[w].Waiting?
    ensures !Blocked(s, s.workers[v])
  {
    var x := s.workers[v];
    if Blocked(s, x) {
      assert WorkerOk(s, x);
      var item := Child(s.accepted[x.n].p, x.j);
      var k: nat :| k < |s.accepted| && s.accepted[k] == item;
      ChildFinished(s, k);
    }
  }

  lemma ChildFinished(s: State, k: nat)
    requires Inv(s) && k < s.head && s.accepted[k].Child?
    requires forall w :: 0 <= w < |s.workers| ==> s.workers[w].Free? || s.workers[w].Waiting?
    ensures k in s.finished
  {
    assert Accounted(s, k);
    forall w | 0 <= w < |s.workers| ensures !Holds(s.workers[w], k) {
      assert WorkerOk(s, s.workers[w]);
    }
  }

  /** What a finished run has achieved: every parent and every child has run. */
  lemma CompleteMeansAllRan(s: State)
    requires Inv(s) && Complete(s)
    ensures forall n: nat :: n < |s.accepted| ==> n in s.finished
    ensures forall p: nat, i: nat :: p < s.parents && i < s.kids ==> Parent(p) in s.accepted && Ready(s, p, i)
  {
    forall n: nat | n < |s.accepted| ensures n in s.finished { assert Accounted(s, n); }
    forall p: nat, i: nat | p < s.parents && i < s.kids ensures Parent(p) in s.accepted && Ready(s, p, i) {
      assert Parent(p) in s.accepted;
      var n: nat :| n < |s.accepted| && s.accepted[n] == Parent(p);
    }
  }

  // -------------------------------------------------- parallelism erosion: P < W

  function IsWaiting(w: Worker): nat {
    if w.Waiting? then 1 else 0
  }

  /** The parents that the first k workers are waiting for. */
  ghost function WaitingFor(s: State, k: nat): set<nat>
    requires k <= |s.workers|
  {
    if k == 0 then {}
    else
      var w := s.workers[k - 1];
      WaitingFor(s, k - 1) + if w.Waiting? && w.n < |s.accepted| then {s.accepted[w.n].p} else {}
  }

  /** Worker v waits for the children of parent p. */
  ghost predicate WaitsFor(s: State, v: nat, p: nat) {
    v < |s.workers| && s.workers[v].Waiting? && s.workers[v].n < |s.accepted| && s.accepted[s.workers[v].n] == Parent(p)
  }

  lemma WaitForDifferent(s: State, v: nat, w: nat, p: nat)
    requires Inv(s) && v < w && WaitsFor(s, v, p)
    ensures !WaitsFor(s, w, p)
  {
    if w < |s.workers| { assert !Holds(s.workers[w], s.workers[v].n); }
  }

  lemma WaiterFacts(s: State, v: nat)
    requires Inv(s) && v < |s.workers| && s.workers[v].Waiting?
    ensures s.workers[v].n < |s.accepted| && s.accepted[s.workers[v].n].p < s.parents
    ensures WaitsFor(s, v, s.accepted[s.workers[v].n].p)
  {
    var w := s.workers[v];
    assert WorkerOk(s, w);
    assert s.accepted[w.n] in s.accepted;
  }

  lemma {:induction false} WaitersAreDistinct(s: State, k: nat)
    requires Inv(s) && k <= |s.workers|
    ensures |WaitingFor(s, k)| == Sum(s.workers[..k], IsWaiting)
    ensures forall p :: p in WaitingFor(s, k) ==> p < s.parents && exists v :: 0 <= v < k && WaitsFor(s, v, p)
  {
    hide Inv, WaitsFor;
    if k > 0 {
      WaitersAreDistinct(s, k - 1);
      assert s.workers[..k][..k - 1] == s.workers[..k - 1];
      var w := s.workers[k - 1];
      if w.Waiting? {
        WaiterFacts(s, k - 1);
        var p := s.accepted[w.n].p;
        forall v | 0 <= v < k - 1 ensures !WaitsFor(s, v, p) {
          if WaitsFor(s, v, p) { WaitForDifferent(s, v, k - 1, p); }
        }
      }
    }
  }

  /** Waiting costs one worker per parent: at most P workers ever wait, so at least
    * W - P never do. */
  lemma WaitersAtMostParents(s: State)
    requires Inv(s)
    ensures Sum(s.workers, IsWaiting) <= s.parents
  {
    WaitersAreDistinct(s, |s.workers|);
    assert s.workers[..|s.workers|] == s.workers;
    BelowCard(WaitingFor(s, |s.workers|), s.parents);
  }

  lemma DeadlockNeedsParents(s: State)
    requires Inv(s) && Deadlocked(s)
    ensures |s.workers| <= s.parents
  {
    WaitersAtMostParents(s);
    SumAll(s.workers, IsWaiting, 1);
  }

  /** With fewer parents than workers every run, whatever the schedule, stops only
    * when all parents and children have run. */
  lemma FewParentsAlwaysFinish(workers: nat, parents: nat, kids: nat, r: Run)
    requires parents < workers && CanRun(Init(workers, parents, kids), r)
    ensures Stuck(Exec(Init(workers, parents, kids), r)) ==> Complete(Exec(Init(workers, parents, kids), r))
    ensures |r| <= StepsLeft(Init(workers, parents, kids))
  {
    InitInv(workers, parents, kids);
    RunsAreFinite(Init(workers, parents, kids), r);
    var t := Exec(Init(workers, parents, kids), r);
    StuckIffDoneOrDeadlocked(t);
    if Deadlocked(t) { DeadlockNeedsParents(t); }
  }

  // ------------------------------------- W parents ahead of every child: deadlock

  /** The first `lead` items accepted are parents. */
  predicate ParentsLead(s: State, lead: nat) {
    |s.accepted| >= lead && forall n :: 0 <= n < lead ==> s.accepted[n].Parent?
  }

  function IsBusy(w: Worker): nat {
    if w.Free? then 0 else 1
  }

  /** Nothing has finished: every worker that took an item took a leading parent. */
  ghost predicate Stalling(s: State, lead: nat) {
    && s.finished == {} && s.kids > 0 && |s.workers| == lead
    && Sum(s.workers, IsBusy) == s.head
    && forall w :: 0 <= w < |s.workers| ==>
         !s.workers[w].InChild? && (s.workers[w].Waiting? ==> s.workers[w].j == 0)
  }

  lemma FreeLeavesRoom(ws: seq<Worker>, w: nat)
    requires w < |ws| && ws[w].Free?
    ensures Sum(ws, IsBusy) < |ws|
  {
    var full := ws[w := InChild(0)];
    SumUpdate(ws, IsBusy, w, InChild(0));
    BusyBound(full);
  }

  lemma {:induction false} BusyBound(ws: seq<Worker>)
    ensures Sum(ws, IsBusy) <= |ws|
  {
    if |ws| > 0 { BusyBound(ws[..|ws| - 1]); }
  }

  lemma LogGrows(s: State, a: Action, r: Run)
    requires CanRun(s, [a] + r)
    ensures Enabled(s, a) && CanRun(Step(s, a), r) && Exec(s, [a] + r) == Exec(Step(s, a), r)
    ensures s.accepted <= Step(s, a).accepted
  {
    assert ([a] + r)[1..] == r && ([a] + r)[0] == a;
  }

  lemma {:induction false} AcceptedPrefix(s: State, r: Run)
    requires CanRun(s, r)
    ensures s.accepted <= Exec(s, r).accepted
    decreases |r|
  {
    if |r| > 0 {
      assert r == [r[0]] + r[1..];
      LogGrows(s, r[0], r[1..]);
      hide Step, Enabled;
      AcceptedPrefix(Step(s, r[0]), r[1..]);
    }
  }

  /** Along a run whose first `lead` accepted items end up being parents, a step
    * may always be judged as if they already were. */
  lemma {:induction false} StallingRun(s: State, r: Run, lead: nat)
    requires Stalling(s, lead) && CanRun(s, r) && ParentsLead(Exec(s, r), lead)
    ensures Stalling(Exec(s, r), lead)
    decreases |r|
  {
    hide Stalling, Step, Enabled;
    if |r| > 0 {
      var t := Step(s, r[0]);
      AcceptedPrefix(t, r[1..]);
      StallingStep(s, r[0], lead, Exec(s, r).accepted);
      StallingRun(t, r[1..], lead);
    }
  }

  lemma StallingStep(s: State, a: Action, lead: nat, log: seq<Item>)
    requires Stalling(s, lead) && Enabled(s, a) && Step(s, a).accepted <= log
    requires |log| >= lead && forall n :: 0 <= n < lead ==> log[n].Parent?
    ensures Stalling(Step(s, a), lead)
  {
    var t := Step(s, a);
    if !a.Submit? {
      SumUpdate(s.workers, IsBusy, a.w, t.workers[a.w]);
      if a.Dequeue? {
        FreeLeavesRoom(s.workers, a.w);
        assert s.accepted[s.head] == log[s.head];
      }
    }
  }

  /** If at least W parents precede every child in the queue, no child is ever run
    * and the run can only stop with all W workers blocked. */
  lemma LeadingParentsDeadlock(workers: nat, parents: nat, kids: nat, r: Run)
    requires workers > 0 && kids > 0 && CanRun(Init(workers, parents, kids), r)
    requires ParentsLead(Exec(Init(workers, parents, kids), r), workers)
    ensures var t := Exec(Init(workers, parents, kids), r);
      && (forall p, i :: !Ready(t, p, i)) && t.finished == {}
      && (forall w :: 0 <= w < |t.workers| ==> !t.workers[w].InChild?)
      && (Stuck(t) ==> Deadlocked(t) && !Complete(t))
  {
    var s := Init(workers, parents, kids);
    SumAll(s.workers, IsBusy, 0);
    StallingRun(s, r, workers);
    InitInv(workers, parents, kids);
    RunKeeps(s, r);
    var t := Exec(s, r);
    StuckIffDoneOrDeadlocked(t);
    hide Inv, Stuck;
    if Complete(t) { SumAll(t.workers, IsBusy, 0); }
  }

  // ---------------------------------------------------------- building runs

  /** Some run leads from s to t. */
  ghost predicate Leads(s: State, t: State) {
    exists r: Run :: CanRun(s, r) && Exec(s, r) == t
  }

  lemma {:induction false} Appended(s: State, a: Run, b: Run)
    requires CanRun(s, a) && CanRun(Exec(s, a), b)
    ensures CanRun(s, a + b) && Exec(s, a + b) == Exec(Exec(s, a), b)
    decreases |a|
  {
    if |a| == 0 {
      assert a + b == b;
    } else {
      assert (a + b)[1..] == a[1..] + b;
      Appended(Step(s, a[0]), a[1..], b);
    }
  }

  lemma LeadsOn(s: State, t: State, u: State)
    requires Leads(s, t) && Leads(t, u)
    ensures Leads(s, u)
  {
    var a: Run :| CanRun(s, a) && Exec(s, a) == t;
    var b: Run :| CanRun(t, b) && Exec(t, b) == u;
    Appended(s, a, b);
  }

  lemma LeadsStep(s: State, a: Action)
    requires Enabled(s, a)
    ensures Leads(s, Step(s, a))
  {
    var r: Run := [a];
    assert CanRun(Step(s, a), r[1..]) && Exec(s, r) == Step(s, a);
  }

  lemma LeadsSelf(s: State)
    ensures Leads(s, s)
  {
    var r: Run := [];
    assert CanRun(s, r) && Exec(s, r) == s;
  }

  /** Every reachable state can be run on until it is stuck. */
  lemma {:induction false} RunOut(s: State) returns (t: State)
    requires Inv(s)
    ensures Leads(s, t) && Stuck(t) && Inv(t) && SameSizes(s, t)
    decreases StepsLeft(s)
  {
    hide Inv, Enabled, Step, Leads, StepsLeft;
    if a :| Enabled(s, a) {
      StepShrinks(s, a);
      t := RunOut(Step(s, a));
      LeadsStep(s, a);
      LeadsOn(s, Step(s, a), t);
    } else {
      t := s;
      LeadsSelf(s);
    }
  }

  // ----------------------------------------------- a run that deadlocks: P >= W

  /** The main thread submits its first k parents before any worker wakes. */
  lemma {:induction false} SubmitFirst(workers: nat, parents: nat, kids: nat, k: nat) returns (t: State)
    requires k <= parents
    ensures Leads(Init(workers, parents, kids), t) && Inv(t) && SameSizes(Init(workers, parents, kids), t)
    ensures t.submitted == k && |t.accepted| == k && forall n :: 0 <= n < k ==> t.accepted[n].Parent?
  {
    var s := Init(workers, parents, kids);
    hide Inv, Leads;
    if k == 0 {
      InitInv(workers, parents, kids);
      LeadsSelf(s);
      t := s;
    } else {
      var u := SubmitFirst(workers, parents, kids, k - 1);
      t := Step(u, Submit);
      StepKeeps(u, Submit);
      LeadsStep(u, Submit);
      LeadsOn(s, u, t);
    }
  }

  lemma DeadlockCanHappen(workers: nat, parents: nat, kids: nat) returns (t: State)
    requires 0 < workers <= parents && kids > 0
    ensures Leads(Init(workers, parents, kids), t) && Stuck(t) && Deadlocked(t) && !Complete(t)
  {
    var s := Init(workers, parents, kids);
    var u := SubmitFirst(workers, parents, kids, workers);
    t := RunOut(u);
    LeadsOn(s, u, t);
    var b: Run :| CanRun(u, b) && Exec(u, b) == t;
    AcceptedPrefix(u, b);
    var r: Run :| CanRun(s, r) && Exec(s, r) == t;
    forall n | 0 <= n < workers ensures t.accepted[n].Parent? { assert t.accepted[n] == u.accepted[n]; }
    LeadingParentsDeadlock(workers, parents, kids, r);
  }

  // ----------------------------------------------- a run that finishes: W >= 2

  /** Worker 0 is at `x`, every other worker is free. */
  ghost predicate Alone(s: State, x: Worker) {
    |s.workers| >= 2 && s.workers == seq(|s.workers|, i => if i == 0 then x else Free)
  }

  lemma AloneAt(s: State, x: Worker)
    requires Alone(s, x)
    ensures s.workers[0] == x && s.workers[1].Free?
    ensures forall w :: 1 <= w < |s.workers| ==> s.workers[w].Free?
  {
  }

  lemma AloneMoves(s: State, x: Worker, t: State, y: Worker)
    requires Alone(s, x) && t.workers == s.workers[0 := y]
    ensures Alone(t, y)
  {
  }

  /** All items still queued are children. */
  ghost predicate KidsQueued(s: State) {
    s.head <= |s.accepted| && forall k :: s.head <= k < |s.accepted| ==> s.accepted[k].Child?
  }

  lemma {:induction false} SubmitKids(s: State, n: nat, j: nat) returns (t: State)
    requires Inv(s) && Alone(s, Submitting(n, j)) && KidsQueued(s) && j <= s.kids
    ensures Leads(s, t) && Inv(t) && SameSizes(s, t) && t.submitted == s.submitted
    ensures Alone(t, Waiting(n, 0)) && KidsQueued(t)
    decreases s.kids - j
  {
    AloneAt(s, Submitting(n, j));
    assert WorkerOk(s, s.workers[0]);
    if j == s.kids {
      t := Step(s, StartWaiting(0));
      StepKeeps(s, StartWaiting(0));
      LeadsStep(s, StartWaiting(0));
      AloneMoves(s, Submitting(n, j), t, Waiting(n, 0));
    } else {
      var u := Step(s, SubmitChild(0));
      StepKeeps(s, SubmitChild(0));
      LeadsStep(s, SubmitChild(0));
      AloneMoves(s, Submitting(n, j), u, Submitting(n, j + 1));
      t := SubmitKids(u, n, j + 1);
      LeadsOn(s, u, t);
    }
  }

  /** Worker 1 runs every queued child. */
  lemma {:induction false} RunKids(s: State, n: nat) returns (t: State)
    requires Inv(s) && Alone(s, Waiting(n, 0)) && KidsQueued(s)
    ensures Leads(s, t) && Inv(t) && SameSizes(s, t) && t.submitted == s.submitted
    ensures Alone(t, Waiting(n, 0)) && t.head == |t.accepted|
    decreases |s.accepted| - s.head
  {
    AloneAt(s, Waiting(n, 0));
    if s.head == |s.accepted| {
      LeadsSelf(s);
      t := s;
    } else {
      var u := Step(s, Dequeue(1));
      StepKeeps(s, Dequeue(1));
      LeadsStep(s, Dequeue(1));
      var v := Step(u, ChildReturns(1));
      StepKeeps(u, ChildReturns(1));
      LeadsStep(u, ChildReturns(1));
      LeadsOn(s, u, v);
      assert v.workers == s.workers;
      t := RunKids(v, n);
      LeadsOn(s, v, t);
    }
  }

  /** Worker 0 collects the futures and returns. */
  lemma {:induction false} CollectKids(s: State, n: nat, j: nat) returns (t: State)
    requires Inv(s) && Alone(s, Waiting(n, j)) && s.head == |s.accepted|
    ensures Leads(s, t) && Inv(t) && SameSizes(s, t) && t.submitted == s.submitted
    ensures Alone(t, Free) && t.head == |t.accepted|
    decreases s.kids - j
  {
    AloneAt(s, Waiting(n, j));
    assert WorkerOk(s, s.workers[0]);
    if j == s.kids {
      t := Step(s, ParentReturns(0));
      StepKeeps(s, ParentReturns(0));
      LeadsStep(s, ParentReturns(0));
      AloneMoves(s, Waiting(n, j), t, Free);
    } else {
      NobodyWaitsForNothing(s, 0);
      var u := Step(s, GetFuture(0));
      StepKeeps(s, GetFuture(0));
      LeadsStep(s, GetFuture(0));
      AloneMoves(s, Waiting(n, j), u, Waiting(n, j + 1));
      t := CollectKids(u, n, j + 1);
      LeadsOn(s, u, t);
    }
  }

  /** One parent from submission to return, with nothing else going on. */
  lemma OneParent(s: State) returns (t: State)
    requires Inv(s) && Alone(s, Free) && s.head == |s.accepted| && s.submitted < s.parents
    ensures Leads(s, t) && Inv(t) && SameSizes(s, t) && t.submitted == s.submitted + 1
    ensures Alone(t, Free) && t.head == |t.accepted|
  {
    AloneAt(s, Free);
    var u := Step(s, Submit);
    StepKeeps(s, Submit);
    LeadsStep(s, Submit);
    var v := Step(u, Dequeue(0));
    StepKeeps(u, Dequeue(0));
    LeadsStep(u, Dequeue(0));
    LeadsOn(s, u, v);
    AloneMoves(s, Free, v, Submitting(s.head, 0));
    hide Inv, Leads, Alone;
    var x := SubmitKids(v, s.head, 0);
    LeadsOn(s, v, x);
    var y := RunKids(x, s.head);
    LeadsOn(s, x, y);
    t := CollectKids(y, s.head, 0);
    LeadsOn(s, y, t);
  }

  lemma {:induction false} OneByOne(workers: nat, parents: nat, kids: nat, k: nat) returns (t: State)
    requires workers >= 2 && k <= parents
    ensures Leads(Init(workers, parents, kids), t) && Inv(t) && SameSizes(Init(workers, parents, kids), t)
    ensures t.submitted == k && Alone(t, Free) && t.head == |t.accepted|
  {
    var s := Init(workers, parents, kids);
    if k == 0 {
      InitInv(workers, parents, kids);
      LeadsSelf(s);
      t := s;
    } else {
      hide Inv, Leads, Alone;
      var u := OneByOne(workers, parents, kids, k - 1);
      t := OneParent(u);
      LeadsOn(s, u, t);
    }
  }

  /** However many parents there are, two workers may finish them all. */
  lemma FinishCanHappen(workers: nat, parents: nat, kids: nat) returns (t: State)
    requires workers >= 2
    ensures Leads(Init(workers, parents, kids), t) && Stuck(t) && Complete(t)
  {
    t := OneByOne(workers, parents, kids, parents);
    AloneAt(t, Free);
    StuckIffDoneOrDeadlocked(t);
  }

  // --------------------------------------------------------- the exact conditions

  /** Deadlock is possible exactly when there are at least as many parents as
    * workers. */
  lemma DeadlockPossibleIff(workers: nat, parents: nat, kids: nat)
    requires workers > 0 && kids > 0
    ensures parents >= workers <==>
      exists t :: Leads(Init(workers, parents, kids), t) && Stuck(t) && !Complete(t)
  {
    if parents >= workers {
      var t := DeadlockCanHappen(workers, parents, kids);
    } else if t :| Leads(Init(workers, parents, kids), t) && Stuck(t) && !Complete(t) {
      var r: Run :| CanRun(Init(workers, parents, kids), r) && Exec(Init(workers, parents, kids), r) == t;
      FewParentsAlwaysFinish(workers, parents, kids, r);
    }
  }

  /** CONTEXT.md:18 calls deadlock certain as soon as parents >= workers. It is
    * certain only for a single worker: with two or more, some run finishes. */
  lemma DeadlockCertainIff(workers: nat, parents: nat, kids: nat)
    requires workers > 0 && parents > 0 && kids > 0
    ensures workers == 1 <==>
      forall t :: Leads(Init(workers, parents, kids), t) && Stuck(t) ==> !Complete(t)
  {
    if workers == 1 {
      forall t | Leads(Init(1, parents, kids), t) && Stuck(t) ensures !Complete(t) {
        var r: Run :| CanRun(Init(1, parents, kids), r) && Exec(Init(1, parents, kids), r) == t;
        InitInv(1, parents, kids);
        RunKeeps(Init(1, parents, kids), r);
        assert !Enabled(t, Submit);
        assert Parent(0) in t.accepted;
        LeadingParentsDeadlock(1, parents, kids, r);
      }
    } else {
      var t := FinishCanHappen(workers, parents, kids);
    }
  }
}

/** The one-slot handoff of 01_producerConsumer.cpp (`producer_consumer2`): each
  * producer puts one cargo, each consumer takes one, and both notify only one
  * waiter. Any number of producers and consumers, spurious wakeups included. */
module OneSlot {
  import opened Sums
  import opened Histories

  datatype Spot = Outside | Checking | Asleep | MustNotify | Notified | Done

  datatype Owner = Nobody | ProducerHas(i: nat) | ConsumerHas(j: nat)

  /** `ids` are the producers' cargo; 0 stands for the empty slot. */
  datatype State = State(ids: seq<int>, lock: Owner, cargo: int, producers: seq<Spot>, consumers: seq<Spot>,
                         put: seq<int>, got: seq<int>)

  datatype Action =
    | Lock(i: nat)
    | Wait(i: nat)
    | Put(i: nat)
    | NotifyConsumer(i: nat, j: nat)
    | NotifyNoConsumer(i: nat)
    | Leave(i: nat)
    | Wake(i: nat)
    | LockC(j: nat)
    | WaitC(j: nat)
    | Take(j: nat)
    | NotifyProducer(j: nat, i: nat)
    | NotifyNoProducer(j: nat)
    | LeaveC(j: nat)
    | WakeC(j: nat)

  predicate ProducerAt(s: State, i: nat, at: Spot) {
    i < |s.producers| && s.producers[i] == at
  }

  predicate ConsumerAt(s: State, j: nat, at: Spot) {
    j < |s.consumers| && s.consumers[j] == at
  }

  predicate Enabled(s: State, a: Action) {
    match a
    case Lock(i) => ProducerAt(s, i, Outside) && s.lock == Nobody
    case Wait(i) => ProducerAt(s, i, Checking) && s.cargo != 0
    case Put(i) => ProducerAt(s, i, Checking) && s.cargo == 0
    case NotifyConsumer(i, j) => ProducerAt(s, i, MustNotify) && ConsumerAt(s, j, Asleep)
    case NotifyNoConsumer(i) => ProducerAt(s, i, MustNotify) && Asleep !in s.consumers
    case Leave(i) => ProducerAt(s, i, Notified)
    case Wake(i) => ProducerAt(s, i, Asleep)
    case LockC(j) => ConsumerAt(s, j, Outside) && s.lock == Nobody
    case WaitC(j) => ConsumerAt(s, j, Checking) && s.cargo == 0
    case Take(j) => ConsumerAt(s, j, Checking) && s.cargo != 0
    case NotifyProducer(j, i) => ConsumerAt(s, j, MustNotify) && ProducerAt(s, i, Asleep)
    case NotifyNoProducer(j) => ConsumerAt(s, j, MustNotify) && Asleep !in s.producers
    case LeaveC(j) => ConsumerAt(s, j, Notified)
    case WakeC(j) => ConsumerAt(s, j, Asleep)
  }

  function Move(s: State, i: nat, at: Spot): State
    requires i < |s.producers|
  {
    s.(producers := s.producers[i := at])
  }

  function MoveC(s: State, j: nat, at: Spot): State
    requires j < |s.consumers|
  {
    s.(consumers := s.consumers[j := at])
  }

  function Id(s: State, i: nat): int {
    if i < |s.ids| then s.ids[i] else 0
  }

  function Step(s: State, a: Action): State
    requires Enabled(s, a)
  {
    match a
    case Lock(i) => Move(s, i, Checking).(lock := ProducerHas(i))
    case Wait(i) => Move(s, i, Asleep).(lock := Nobody)
    case Put(i) => Move(s, i, MustNotify).(cargo := Id(s, i), put := s.put + [Id(s, i)])
    case NotifyConsumer(i, j) => MoveC(Move(s, i, Notified), j, Outside)
    case NotifyNoConsumer(i) => Move(s, i, Notified)
    case Leave(i) => Move(s, i, Done).(lock := Nobody)
    case Wake(i) => Move(s, i, Outside)
    case LockC(j) => MoveC(s, j, Checking).(lock := ConsumerHas(j))
    case WaitC(j) => MoveC(s, j, Asleep).(lock := Nobody)
    case Take(j) => MoveC(s, j, MustNotify).(cargo := 0, got := s.got + [s.cargo])
    case NotifyProducer(j, i) => Move(MoveC(s, j, Notified), i, Outside)
    case NotifyNoProducer(j) => MoveC(s, j, Notified)
    case LeaveC(j) => MoveC(s, j, Done).(lock := Nobody)
    case WakeC(j) => MoveC(s, j, Outside)
  }

  function Init(ids: seq<int>, consumers: nat): State {
    State(ids, Nobody, 0, seq(|ids|, _ => Outside), seq(consumers, _ => Outside), [], [])
  }

  // ---------------------------------------------------------------- invariant

  predicate Inside(at: Spot) {
    at.Checking? || at.MustNotify? || at.Notified?
  }

  ghost predicate Mutex(s: State) {
    && (forall i :: 0 <= i < |s.producers| ==> (Inside(s.producers[i]) <==> s.lock == ProducerHas(i)))
    && (forall j :: 0 <= j < |s.consumers| ==> (Inside(s.consumers[j]) <==> s.lock == ConsumerHas(j)))
    && (s.lock.ProducerHas? ==> s.lock.i < |s.producers|)
    && (s.lock.ConsumerHas? ==> s.lock.j < |s.consumers|)
  }

  /** Past its turn at the slot. */
  function Served(at: Spot): nat { if at.MustNotify? || at.Notified? || at.Done? then 1 else 0 }
  function Looking(at: Spot): nat { if at.Outside? || at.Checking? then 1 else 0 }
  function Owes(at: Spot): nat { if at.MustNotify? then 1 else 0 }

  /** What went in comes out, in order; at most the last cargo is still there. */
  ghost predicate Handoff(s: State) {
    && |s.ids| == |s.producers| && (forall i :: 0 <= i < |s.ids| ==> s.ids[i] != 0)
    && s.put == s.got + (if s.cargo == 0 then [] else [s.cargo])
    && |s.put| == Sum(s.producers, Served) && |s.got| == Sum(s.consumers, Served)
  }

  function Pairs(ids: seq<int>, producers: seq<Spot>): seq<(int, Spot)>
    requires |ids| == |producers|
  {
    seq(|ids|, i requires 0 <= i < |ids| => (ids[i], producers[i]))
  }

  function CargoOf(p: (int, Spot)): multiset<int> {
    if Served(p.1) == 1 then multiset{p.0} else multiset{}
  }

  /** The cargoes of the producers that have had their turn. */
  ghost function Delivered(ids: seq<int>, producers: seq<Spot>): multiset<int>
    requires |ids| == |producers|
  {
    Gather(Pairs(ids, producers), CargoOf)
  }

  lemma DeliveredChange(ids: seq<int>, producers: seq<Spot>, i: nat, at: Spot)
    requires |ids| == |producers| && i < |ids|
    ensures Served(at) == Served(producers[i]) ==>
      Delivered(ids, producers[i := at]) == Delivered(ids, producers)
    ensures Served(producers[i]) == 0 && Served(at) == 1 ==>
      Delivered(ids, producers[i := at]) == Delivered(ids, producers) + multiset{ids[i]}
  {
    hide Gather, Served;
    var ps := Pairs(ids, producers);
    var others := GatherChange(ps, CargoOf, CargoOf, i, (ids[i], at));
    assert ps[i := (ids[i], at)] == Pairs(ids, producers[i := at]);
    assert ps[i] == (ids[i], producers[i]);
  }

  lemma DeliveredNext(ids: seq<int>, producers: seq<Spot>)
    requires |ids| == |producers| > 0
    ensures var m := |ids| - 1;
      && Delivered(ids, producers) == Delivered(ids[..m], producers[..m]) + CargoOf((ids[m], producers[m]))
      && Sum(producers, Served) == Sum(producers[..m], Served) + Served(producers[m])
  {
    var m := |ids| - 1;
    assert Pairs(ids, producers)[..m] == Pairs(ids[..m], producers[..m]);
    hide Served, CargoOf;
  }

  lemma BagLast(ids: seq<int>)
    requires |ids| > 0
    ensures multiset(ids) == multiset(ids[..|ids| - 1]) + multiset{ids[|ids| - 1]}
  {
    assert ids == ids[..|ids| - 1] + [ids[|ids| - 1]];
  }

  /** Nobody's cargo is delivered twice; with everybody served all of them are. */
  lemma {:induction false} DeliveredBound(ids: seq<int>, producers: seq<Spot>)
    requires |ids| == |producers|
    ensures Delivered(ids, producers) <= multiset(ids)
    ensures Sum(producers, Served) <= |producers|
    ensures Sum(producers, Served) == |producers| ==> Delivered(ids, producers) == multiset(ids)
  {
    if |ids| > 0 {
      hide Served, Sum, Delivered;
      var m := |ids| - 1;
      DeliveredBound(ids[..m], producers[..m]);
      DeliveredNext(ids, producers);
      BagLast(ids);
      ServedOnce(producers[m]);
    } else {
      NobodyDelivered(ids, producers);
    }
  }

  lemma ServedOnce(at: Spot)
    ensures Served(at) <= 1
  {
  }

  lemma NobodyDelivered(ids: seq<int>, producers: seq<Spot>)
    requires |ids| == |producers| && forall i :: 0 <= i < |producers| ==> Served(producers[i]) == 0
    ensures Delivered(ids, producers) == multiset{}
  {
    GatherNone(Pairs(ids, producers), CargoOf);
  }

  /** What went in is the cargo of each producer served, once. */
  ghost predicate Tally(s: State) {
    |s.ids| == |s.producers| && multiset(s.put) == Delivered(s.ids, s.producers)
  }

  /** A sleeper who could proceed is never alone: somebody on its side is still
    * looking, or somebody on the other side still owes a notification. */
  ghost predicate NoStranded(s: State) {
    && (s.cargo != 0 && Asleep in s.consumers ==> Sum(s.consumers, Looking) + Sum(s.producers, Owes) > 0)
    && (s.cargo == 0 && Asleep in s.producers ==> Sum(s.producers, Looking) + Sum(s.consumers, Owes) > 0)
  }

  ghost predicate Inv(s: State) {
    Mutex(s) && Handoff(s) && Tally(s) && NoStranded(s)
  }

  lemma InitInv(ids: seq<int>, consumers: nat)
    requires forall i :: 0 <= i < |ids| ==> ids[i] != 0
    ensures Inv(Init(ids, consumers))
  {
    SumAll(Init(ids, consumers).producers, Served, 0);
    SumAll(Init(ids, consumers).consumers, Served, 0);
    NobodyDelivered(ids, Init(ids, consumers).producers);
  }

  predicate ByProducer(a: Action) {
    a.Lock? || a.Wait? || a.Put? || a.NotifyConsumer? || a.NotifyNoConsumer? || a.Leave? || a.Wake?
  }

  lemma MutexKept(s: State, a: Action)
    requires Mutex(s) && Enabled(s, a)
    ensures Mutex(Step(s, a))
  {
  }

  /** One participant moves: its side's counts change by its own contribution. */
  lemma Counts(xs: seq<Spot>, i: nat, at: Spot)
    requires i < |xs|
    ensures Sum(xs[i := at], Served) + Served(xs[i]) == Sum(xs, Served) + Served(at)
    ensures Sum(xs[i := at], Looking) + Looking(xs[i]) == Sum(xs, Looking) + Looking(at)
    ensures Sum(xs[i := at], Owes) + Owes(xs[i]) == Sum(xs, Owes) + Owes(at)
    ensures Looking(at) <= Sum(xs[i := at], Looking) && Owes(at) <= Sum(xs[i := at], Owes)
  {
    SumUpdate(xs, Served, i, at);
    SumUpdate(xs, Looking, i, at);
    SumUpdate(xs, Owes, i, at);
    SumAtLeast(xs[i := at], Looking, i);
    SumAtLeast(xs[i := at], Owes, i);
  }

  lemma ProducerHandoff(s: State, a: Action)
    requires Handoff(s) && Enabled(s, a) && ByProducer(a)
    ensures Handoff(Step(s, a))
  {
    Counts(s.producers, a.i, Step(s, a).producers[a.i]);
    if a.NotifyConsumer? { Counts(s.consumers, a.j, Outside); }
    hide Sum;
  }

  lemma ConsumerHandoff(s: State, a: Action)
    requires Handoff(s) && Enabled(s, a) && !ByProducer(a)
    ensures Handoff(Step(s, a))
  {
    Counts(s.consumers, a.j, Step(s, a).consumers[a.j]);
    if a.NotifyProducer? { Counts(s.producers, a.i, Outside); }
    hide Sum;
  }

  lemma ProducerStrands(s: State, a: Action)
    requires NoStranded(s) && Enabled(s, a) && ByProducer(a) && (a.Put? ==> Id(s, a.i) != 0)
    ensures NoStranded(Step(s, a))
  {
    Counts(s.producers, a.i, Step(s, a).producers[a.i]);
    if a.NotifyConsumer? { Counts(s.consumers, a.j, Outside); }
    hide Sum;
  }

  lemma ConsumerStrands(s: State, a: Action)
    requires NoStranded(s) && Enabled(s, a) && !ByProducer(a)
    ensures NoStranded(Step(s, a))
  {
    Counts(s.consumers, a.j, Step(s, a).consumers[a.j]);
    if a.NotifyProducer? { Counts(s.producers, a.i, Outside); }
    hide Sum;
  }

  /** Who moves, and whether that is a producer being served. */
  lemma TallyMoves(s: State, a: Action)
    requires Enabled(s, a) && |s.ids| == |s.producers|
    ensures a.Put? ==> a.i < |s.ids| && Served(s.producers[a.i]) == 0 && Served(MustNotify) == 1
    ensures a.Put? ==> Step(s, a).producers == s.producers[a.i := MustNotify] && Step(s, a).put == s.put + [s.ids[a.i]]
    ensures !a.Put? ==> Step(s, a).put == s.put
    ensures !a.Put? && (ByProducer(a) || a.NotifyProducer?) ==>
      var ps := Step(s, a).producers;
      a.i < |s.producers| == |ps| && Served(ps[a.i]) == Served(s.producers[a.i]) && ps == s.producers[a.i := ps[a.i]]
    ensures !ByProducer(a) && !a.NotifyProducer? ==> Step(s, a).producers == s.producers
    ensures Step(s, a).ids == s.ids && |Step(s, a).producers| == |s.producers|
  {
  }

  lemma TallyKept(s: State, a: Action)
    requires Tally(s) && Enabled(s, a)
    ensures Tally(Step(s, a))
  {
    TallyMoves(s, a);
    hide Enabled, Step, Served, Delivered;
    if a.Put? {
      DeliveredChange(s.ids, s.producers, a.i, MustNotify);
      assert multiset(s.put + [s.ids[a.i]]) == multiset(s.put) + multiset{s.ids[a.i]};
    } else if ByProducer(a) || a.NotifyProducer? {
      DeliveredChange(s.ids, s.producers, a.i, Step(s, a).producers[a.i]);
    }
  }

  lemma StepKeeps(s: State, a: Action)
    requires Inv(s) && Enabled(s, a)
    ensures Inv(Step(s, a)) && SameTeams(s, Step(s, a))
  {
    MutexKept(s, a);
    TallyKept(s, a);
    TeamsKept(s, a);
    assert ByProducer(a) && a.Put? ==> Id(s, a.i) != 0;
    hide Mutex, Handoff, Tally, NoStranded, Step, Enabled, Id;
    if ByProducer(a) {
      ProducerHandoff(s, a);
      ProducerStrands(s, a);
    } else {
      ConsumerHandoff(s, a);
      ConsumerStrands(s, a);
    }
  }

  lemma TeamsKept(s: State, a: Action)
    requires Enabled(s, a)
    ensures SameTeams(s, Step(s, a))
  {
  }

  predicate SameTeams(s: State, t: State) {
    t.ids == s.ids && |t.producers| == |s.producers| && |t.consumers| == |s.consumers|
  }

  // ---------------------------------------------------------------- termination

  function SpotLeft(at: Spot): nat {
    match at
    case Outside => 7
    case Checking => 6
    case Asleep => 5
    case MustNotify => 4
    case Notified => 1
    case Done => 0
  }

  function StepsLeft(s: State): nat {
    Sum(s.producers, SpotLeft) + Sum(s.consumers, SpotLeft)
  }

  lemma StepShrinks(s: State, a: Action)
    requires Enabled(s, a) && !a.Wake? && !a.WakeC?
    ensures StepsLeft(Step(s, a)) < StepsLeft(s)
  {
    hide *;
    if ByProducer(a) { ProducerShrinks(s, a); } else { ConsumerShrinks(s, a); }
  }

  lemma ProducerShrinks(s: State, a: Action)
    requires Enabled(s, a) && ByProducer(a) && !a.Wake?
    ensures StepsLeft(Step(s, a)) < StepsLeft(s)
  {
    SumUpdate(s.producers, SpotLeft, a.i, Step(s, a).producers[a.i]);
    if a.NotifyConsumer? { SumUpdate(s.consumers, SpotLeft, a.j, Outside); }
    hide Sum;
  }

  lemma ConsumerShrinks(s: State, a: Action)
    requires Enabled(s, a) && !ByProducer(a) && !a.WakeC?
    ensures StepsLeft(Step(s, a)) < StepsLeft(s)
  {
    SumUpdate(s.consumers, SpotLeft, a.j, Step(s, a).consumers[a.j]);
    if a.NotifyProducer? { SumUpdate(s.producers, SpotLeft, a.i, Outside); }
    hide Sum;
  }

  type Run = seq<Action>

  predicate CanRun(s: State, r: Run)
    decreases |r|
  {
    |r| == 0 || (Enabled(s, r[0]) && CanRun(Step(s, r[0]), r[1..]))
  }

  function Exec(s: State, r: Run): State
    requires CanRun(s, r)
    decreases |r|
  {
    if |r| == 0 then s else Exec(Step(s, r[0]), r[1..])
  }

  predicate NoSpurious(r: Run) {
    forall k :: 0 <= k < |r| ==> !r[k].Wake? && !r[k].WakeC?
  }

  lemma {:induction false} RunKeeps(s: State, r: Run)
    requires Inv(s) && CanRun(s, r)
    ensures Inv(Exec(s, r)) && SameTeams(s, Exec(s, r))
    ensures NoSpurious(r) ==> |r| + StepsLeft(Exec(s, r)) <= StepsLeft(s)
    decreases |r|
  {
    hide Inv, Enabled, Step, StepsLeft;
    if |r| > 0 {
      StepKeeps(s, r[0]);
      if NoSpurious(r) { StepShrinks(s, r[0]); }
      RunKeeps(Step(s, r[0]), r[1..]);
    }
  }

  // -------------------------------------------------------------- how runs end

  /** Nothing but a spurious wakeup can happen any more. */
  ghost predicate Stuck(s: State) {
    forall a :: Enabled(s, a) ==> a.Wake? || a.WakeC?
  }

  lemma NobodyInside(s: State)
    requires Mutex(s) && Stuck(s)
    ensures s.lock == Nobody
  {
    match s.lock {
      case Nobody =>
      case ProducerHas(i) =>
        assert Inside(s.producers[i]);
        if s.producers[i].MustNotify? {
          if j :| 0 <= j < |s.consumers| && s.consumers[j] == Asleep {
            assert Enabled(s, NotifyConsumer(i, j));
          } else {
            assert Enabled(s, NotifyNoConsumer(i));
          }
        } else {
          assert Enabled(s, if s.producers[i].Notified? then Leave(i) else if s.cargo == 0 then Put(i) else Wait(i));
        }
      case ConsumerHas(j) =>
        assert Inside(s.consumers[j]);
        if s.consumers[j].MustNotify? {
          if i :| 0 <= i < |s.producers| && s.producers[i] == Asleep {
            assert Enabled(s, NotifyProducer(j, i));
          } else {
            assert Enabled(s, NotifyNoProducer(j));
          }
        } else {
          assert Enabled(s, if s.consumers[j].Notified? then LeaveC(j) else if s.cargo == 0 then WaitC(j) else Take(j));
        }
    }
  }

  /** Then everybody is finished or asleep. */
  lemma StuckSides(s: State)
    requires Mutex(s) && Stuck(s)
    ensures forall i :: 0 <= i < |s.producers| ==> s.producers[i].Done? || s.producers[i].Asleep?
    ensures forall j :: 0 <= j < |s.consumers| ==> s.consumers[j].Done? || s.consumers[j].Asleep?
  {
    NobodyInside(s);
    forall i | 0 <= i < |s.producers| ensures s.producers[i].Done? || s.producers[i].Asleep? {
      assert !Enabled(s, Lock(i)) && !Inside(s.producers[i]);
    }
    forall j | 0 <= j < |s.consumers| ensures s.consumers[j].Done? || s.consumers[j].Asleep? {
      assert !Enabled(s, LockC(j)) && !Inside(s.consumers[j]);
    }
  }

  lemma NoneLooking(xs: seq<Spot>)
    requires forall i :: 0 <= i < |xs| ==> xs[i].Done? || xs[i].Asleep?
    ensures Sum(xs, Looking) == 0 && Sum(xs, Owes) == 0 && Sum(xs, Served) <= |xs|
    ensures Sum(xs, Served) == |xs| <==> Asleep !in xs
  {
    SumAll(xs, Looking, 0);
    SumAll(xs, Owes, 0);
    FullCount(xs, Served);
    if Asleep in xs {
      var i :| 0 <= i < |xs| && xs[i] == Asleep;
      assert Served(xs[i]) == 0;
    }
  }

  /** How a run ends: as many cargoes are consumed as there are producers and
    * consumers to hand them over, and one more may wait in the slot. */
  lemma HowItEnds(s: State)
    requires Inv(s) && Stuck(s)
    ensures |s.got| == Min(|s.producers|, |s.consumers|)
    ensures |s.put| == Min(|s.producers|, |s.consumers| + 1)
    ensures Asleep !in s.producers && Asleep !in s.consumers <==>
      |s.consumers| <= |s.producers| <= |s.consumers| + 1
  {
    StuckSides(s);
    NoneLooking(s.producers);
    NoneLooking(s.consumers);
    hide Mutex, Stuck, Sum;
  }

  /** A producer is held up by nothing but sleep and the mutex; it waits exactly while
    * a cargo put in is still to be taken, and puts exactly if none is. */
  lemma WhenProducersWait(s: State, i: nat)
    requires Inv(s) && i < |s.producers|
    ensures (forall a :: ByProducer(a) && a.i == i && !a.Wake? ==> !Enabled(s, a)) <==>
      s.producers[i].Done? || s.producers[i].Asleep? || (s.producers[i].Outside? && s.lock != Nobody)
    ensures Enabled(s, Wait(i)) <==> s.producers[i].Checking? && |s.put| == |s.got| + 1
    ensures Enabled(s, Put(i)) <==> s.producers[i].Checking? && s.put == s.got
  {
    hide Sum, Mutex, NoStranded, Tally;
    var a := match s.producers[i]
      case Outside => Lock(i)
      case Checking => if s.cargo == 0 then Put(i) else Wait(i)
      case Notified => Leave(i)
      case _ => NotifyNoConsumer(i);
    assert ByProducer(a) && a.i == i && !a.Wake?;
    if s.producers[i].MustNotify? && Asleep in s.consumers {
      var j :| 0 <= j < |s.consumers| && s.consumers[j] == Asleep;
      assert Enabled(s, NotifyConsumer(i, j));
    }
  }

  lemma WhenConsumersWait(s: State, j: nat)
    requires Inv(s) && j < |s.consumers|
    ensures (forall a :: !ByProducer(a) && a.j == j && !a.WakeC? ==> !Enabled(s, a)) <==>
      s.consumers[j].Done? || s.consumers[j].Asleep? || (s.consumers[j].Outside? && s.lock != Nobody)
    ensures Enabled(s, WaitC(j)) <==> s.consumers[j].Checking? && s.put == s.got
    ensures Enabled(s, Take(j)) <==> s.consumers[j].Checking? && |s.put| == |s.got| + 1
  {
    hide Sum, Mutex, NoStranded, Tally;
    var a := match s.consumers[j]
      case Outside => LockC(j)
      case Checking => if s.cargo == 0 then WaitC(j) else Take(j)
      case Notified => LeaveC(j)
      case _ => NotifyNoProducer(j);
    assert !ByProducer(a) && a.j == j && !a.WakeC?;
    if s.consumers[j].MustNotify? && Asleep in s.producers {
      var i :| 0 <= i < |s.producers| && s.producers[i] == Asleep;
      assert Enabled(s, NotifyProducer(j, i));
    }
  }

  /** The cargoes of the producers that put theirs in a run, in that order. */
  function Puts(r: Run, ids: seq<int>): seq<int> {
    if |r| == 0 then [] else (match r[0] case Put(i) => [if i < |ids| then ids[i] else 0] case _ => []) + Puts(r[1..], ids)
  }

  lemma {:induction false} PutsInOrder(s: State, r: Run)
    requires CanRun(s, r)
    ensures Exec(s, r).put == s.put + Puts(r, s.ids)
    decreases |r|
  {
    if |r| > 0 {
      PutStep(s, r[0]);
      hide Step, Enabled;
      PutsInOrder(Step(s, r[0]), r[1..]);
    }
  }

  lemma PutStep(s: State, a: Action)
    requires Enabled(s, a)
    ensures Step(s, a).ids == s.ids
    ensures Step(s, a).put == s.put + match a case Put(i) => [if i < |s.ids| then s.ids[i] else 0] case _ => []
  {
  }

  /** For any nonzero cargoes and any number of consumers, despite notify_one: every
    * run without spurious wakeups is bounded, cargoes come out in the order they
    * went in, and no producer's cargo is consumed twice. A run that can go no
    * further has consumed as many as there are pairs; with as many consumers as
    * producers everybody finishes and the cargoes consumed are exactly the
    * producers', each once. */
  lemma EveryCargoArrives(ids: seq<int>, consumers: nat, r: Run)
    requires CanRun(Init(ids, consumers), r) && forall i :: 0 <= i < |ids| ==> ids[i] != 0
    ensures NoSpurious(r) ==> |r| <= StepsLeft(Init(ids, consumers))
    ensures var s := Exec(Init(ids, consumers), r);
      && s.put == Puts(r, ids) && s.got <= s.put && multiset(s.got) <= multiset(ids) && multiset(s.put) <= multiset(ids)
      && (Stuck(s) ==> |s.got| == Min(|ids|, consumers))
      && (Stuck(s) && |ids| == consumers ==>
            multiset(s.got) == multiset(ids) && Asleep !in s.producers && Asleep !in s.consumers)
  {
    hide *;
    InitInv(ids, consumers);
    RunKeeps(Init(ids, consumers), r);
    var s := Exec(Init(ids, consumers), r);
    Sizes(ids, consumers, s);
    PutsFromStart(ids, consumers, r);
    OnlyIds(s);
    if Stuck(s) {
      HowItEnds(s);
      MinSelf(|ids|);
    }
  }

  /** The cargoes put are producers' own, and all of them once as many are put. */
  lemma OnlyIds(s: State)
    requires Inv(s)
    ensures multiset(s.got) <= multiset(s.put) <= multiset(s.ids)
    ensures |s.put| == |s.ids| ==> multiset(s.put) == multiset(s.ids)
    ensures |s.got| == |s.put| ==> s.got == s.put
  {
    DeliveredBound(s.ids, s.producers);
    hide Sum, Delivered, Mutex, NoStranded;
  }

  lemma PutsFromStart(ids: seq<int>, consumers: nat, r: Run)
    requires CanRun(Init(ids, consumers), r)
    ensures Exec(Init(ids, consumers), r).put == Puts(r, ids)
  {
    hide CanRun, Exec, Puts;
    PutsInOrder(Init(ids, consumers), r);
  }

  lemma MinSelf(n: nat)
    ensures Min(n, n) == n && Min(n, n + 1) == n
  {
  }

  lemma Sizes(ids: seq<int>, consumers: nat, s: State)
    requires Inv(s) && SameTeams(Init(ids, consumers), s)
    ensures s.ids == ids && |s.producers| == |ids| && |s.consumers| == consumers && s.got <= s.put
  {
  }
}

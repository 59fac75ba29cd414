/** The bounded buffer of 4_semaphore.cpp (`producerConsumerExample`) with any
  * number of producers and consumers and any buffer size: semaphores empty and
  * full count slots, a third guards the ring. */
module SemaphoreBuffer {
  import opened Sums
  import opened RingSlots
  import opened Histories

  datatype Spot = Idle | Reserved | Critical | Touched | Unlocked

  /** A producer and the items it has still to write. */
  datatype Producer = Producer(at: Spot, items: seq<int>)

  /** A consumer and the number of items it has still to take. */
  datatype Consumer = Consumer(at: Spot, left: nat)

  /** `written` and `taken` record the items in the order of the critical sections,
    * and `writers` which producer wrote each. */
  datatype State = State(empty: nat, mutex: nat, full: nat, buffer: seq<int>, inPos: nat, outPos: nat, count: int,
                         producers: seq<Producer>, consumers: seq<Consumer>, written: seq<int>, taken: seq<int>, writers: seq<nat>)

  datatype Action =
    | WaitEmpty(i: nat)
    | Lock(i: nat)
    | Write(i: nat)
    | Unlock(i: nat)
    | SignalFull(i: nat)
    | WaitFull(j: nat)
    | LockC(j: nat)
    | Take(j: nat)
    | UnlockC(j: nat)
    | SignalEmpty(j: nat)

  predicate ProducerAt(s: State, i: nat, at: Spot) {
    i < |s.producers| && s.producers[i].at == at
  }

  predicate ConsumerAt(s: State, j: nat, at: Spot) {
    j < |s.consumers| && s.consumers[j].at == at
  }

  predicate Enabled(s: State, a: Action) {
    match a
    case WaitEmpty(i) => ProducerAt(s, i, Idle) && s.producers[i].items != [] && s.empty > 0
    case Lock(i) => ProducerAt(s, i, Reserved) && s.mutex > 0
    case Write(i) => ProducerAt(s, i, Critical)
    case Unlock(i) => ProducerAt(s, i, Touched)
    case SignalFull(i) => ProducerAt(s, i, Unlocked)
    case WaitFull(j) => ConsumerAt(s, j, Idle) && s.consumers[j].left > 0 && s.full > 0
    case LockC(j) => ConsumerAt(s, j, Reserved) && s.mutex > 0
    case Take(j) => ConsumerAt(s, j, Critical)
    case UnlockC(j) => ConsumerAt(s, j, Touched)
    case SignalEmpty(j) => ConsumerAt(s, j, Unlocked)
  }

  function Move(s: State, i: nat, at: Spot): State
    requires i < |s.producers|
  {
    s.(producers := s.producers[i := s.producers[i].(at := at)])
  }

  function MoveC(s: State, j: nat, at: Spot): State
    requires j < |s.consumers|
  {
    s.(consumers := s.consumers[j := s.consumers[j].(at := at)])
  }

  /** The next ring position; the buffer is never of size 0. */
  function Next(s: State, pos: nat): nat {
    if |s.buffer| > 0 then Slot(|s.buffer|, pos + 1) else 0
  }

  function Get(b: seq<int>, i: nat): int {
    if i < |b| then b[i] else 0
  }

  function Put(b: seq<int>, i: nat, v: int): seq<int> {
    if i < |b| then b[i := v] else b
  }

  function Step(s: State, a: Action): State
    requires Enabled(s, a)
  {
    match a
    case WaitEmpty(i) => Move(s, i, Reserved).(empty := Decrement(s.empty))
    case Lock(i) => Move(s, i, Critical).(mutex := Decrement(s.mutex))
    case Write(i) =>
      var p := s.producers[i];
      var item := Get(p.items, 0);
      s.(producers := s.producers[i := Producer(Touched, if p.items == [] then [] else p.items[1..])],
         buffer := Put(s.buffer, s.inPos, item), inPos := Next(s, s.inPos), count := s.count + 1,
         written := s.written + [item], writers := s.writers + [i])
    case Unlock(i) => Move(s, i, Unlocked).(mutex := s.mutex + 1)
    case SignalFull(i) => Move(s, i, Idle).(full := s.full + 1)
    case WaitFull(j) => MoveC(s, j, Reserved).(full := Decrement(s.full))
    case LockC(j) => MoveC(s, j, Critical).(mutex := Decrement(s.mutex))
    case Take(j) =>
      s.(consumers := s.consumers[j := Consumer(Touched, Decrement(s.consumers[j].left))],
         outPos := Next(s, s.outPos), count := s.count - 1, taken := s.taken + [Get(s.buffer, s.outPos)])
    case UnlockC(j) => MoveC(s, j, Unlocked).(mutex := s.mutex + 1)
    case SignalEmpty(j) => MoveC(s, j, Idle).(empty := s.empty + 1)
  }

  function Init(buffer: seq<int>, items: seq<seq<int>>, takes: seq<nat>): State {
    State(|buffer|, 1, 0, buffer, 0, 0, 0,
          seq(|items|, i requires 0 <= i < |items| => Producer(Idle, items[i])),
          seq(|takes|, j requires 0 <= j < |takes| => Consumer(Idle, takes[j])), [], [], [])
  }

  // ---------------------------------------------------------------- invariant

  function Inside(at: Spot): nat { if at.Critical? || at.Touched? then 1 else 0 }
  /** Has a permit and has not touched the ring yet. */
  function Before(at: Spot): nat { if at.Reserved? || at.Critical? then 1 else 0 }
  /** Has touched the ring and not passed the permit on yet. */
  function After(at: Spot): nat { if at.Touched? || at.Unlocked? then 1 else 0 }

  function PInside(p: Producer): nat { Inside(p.at) }
  function PBefore(p: Producer): nat { Before(p.at) }
  function PAfter(p: Producer): nat { After(p.at) }
  function CInside(c: Consumer): nat { Inside(c.at) }
  function CBefore(c: Consumer): nat { Before(c.at) }
  function CAfter(c: Consumer): nat { After(c.at) }

  /** Every slot is accounted for: free, reserved, full, or changing hands. */
  ghost predicate Permits(s: State) {
    && s.mutex + Sum(s.producers, PInside) + Sum(s.consumers, CInside) == 1
    && s.empty + Sum(s.producers, PBefore) + s.count + Sum(s.consumers, CAfter) == |s.buffer|
    && s.full + Sum(s.producers, PAfter) + Sum(s.consumers, CBefore) == s.count
  }

  /** The ring holds what is written and not yet taken, in order. */
  ghost predicate Ring(buffer: seq<int>, inPos: nat, outPos: nat, written: seq<int>, taken: seq<int>) {
    && |buffer| > 0 && inPos == Slot(|buffer|, |written|) && outPos == Slot(|buffer|, |taken|)
    && taken <= written && |written| <= |taken| + |buffer|
    && forall k: nat :: |taken| <= k < |written| ==>
         Slot(|buffer|, k) < |buffer| && buffer[Slot(|buffer|, k)] == written[k]
  }

  /** Whoever holds a permit has something to do with it. */
  ghost predicate Purposeful(s: State) {
    && (forall i :: 0 <= i < |s.producers| && PBefore(s.producers[i]) == 1 ==> s.producers[i].items != [])
    && (forall j :: 0 <= j < |s.consumers| && CBefore(s.consumers[j]) == 1 ==> s.consumers[j].left > 0)
  }

  ghost predicate Inv(s: State) {
    && Permits(s) && Purposeful(s)
    && s.count == |s.written| - |s.taken|
    && Ring(s.buffer, s.inPos, s.outPos, s.written, s.taken)
  }

  lemma InitInv(buffer: seq<int>, items: seq<seq<int>>, takes: seq<nat>)
    requires |buffer| > 0
    ensures Inv(Init(buffer, items, takes))
  {
    var s := Init(buffer, items, takes);
    SumAll(s.producers, PInside, 0);
    SumAll(s.producers, PBefore, 0);
    SumAll(s.producers, PAfter, 0);
    SumAll(s.consumers, CInside, 0);
    SumAll(s.consumers, CBefore, 0);
    SumAll(s.consumers, CAfter, 0);
    SlotIs(|buffer|, 0, 0, 0);
  }

  // ------------------------------------------------------------ what steps keep

  lemma WriteRing(buffer: seq<int>, inPos: nat, outPos: nat, written: seq<int>, taken: seq<int>, item: int)
    requires Ring(buffer, inPos, outPos, written, taken) && |written| < |taken| + |buffer|
    ensures Ring(Put(buffer, inPos, item), Slot(|buffer|, inPos + 1), outPos, written + [item], taken)
  {
    var n := |buffer|;
    SlotSuccessor(n, |written|);
    SlotsDiffer(n, |written|, |written|);
    forall k: nat | |taken| <= k < |written| ensures Slot(n, k) < n && Slot(n, k) != inPos {
      SlotsDiffer(n, k, |written|);
    }
    hide Slot;
  }

  lemma TakeRing(buffer: seq<int>, inPos: nat, outPos: nat, written: seq<int>, taken: seq<int>)
    requires Ring(buffer, inPos, outPos, written, taken) && |taken| < |written|
    ensures Ring(buffer, inPos, Slot(|buffer|, outPos + 1), written, taken + [Get(buffer, outPos)])
  {
    SlotSuccessor(|buffer|, |taken|);
    assert written[..|taken| + 1] == taken + [written[|taken|]];
    hide Slot;
  }

  predicate ByProducer(a: Action) {
    a.WaitEmpty? || a.Lock? || a.Write? || a.Unlock? || a.SignalFull?
  }

  lemma ProducerCounts(s: State, i: nat, p: Producer)
    requires i < |s.producers|
    ensures var ps := s.producers[i := p];
      && Sum(ps, PInside) + PInside(s.producers[i]) == Sum(s.producers, PInside) + PInside(p)
      && Sum(ps, PBefore) + PBefore(s.producers[i]) == Sum(s.producers, PBefore) + PBefore(p)
      && Sum(ps, PAfter) + PAfter(s.producers[i]) == Sum(s.producers, PAfter) + PAfter(p)
    ensures PInside(s.producers[i]) <= Sum(s.producers, PInside)
    ensures PBefore(s.producers[i]) <= Sum(s.producers, PBefore)
    ensures PAfter(s.producers[i]) <= Sum(s.producers, PAfter)
  {
    SumUpdate(s.producers, PInside, i, p);
    SumUpdate(s.producers, PBefore, i, p);
    SumUpdate(s.producers, PAfter, i, p);
    SumAtLeast(s.producers, PInside, i);
    SumAtLeast(s.producers, PBefore, i);
    SumAtLeast(s.producers, PAfter, i);
  }

  lemma ConsumerCounts(s: State, j: nat, c: Consumer)
    requires j < |s.consumers|
    ensures var cs := s.consumers[j := c];
      && Sum(cs, CInside) + CInside(s.consumers[j]) == Sum(s.consumers, CInside) + CInside(c)
      && Sum(cs, CBefore) + CBefore(s.consumers[j]) == Sum(s.consumers, CBefore) + CBefore(c)
      && Sum(cs, CAfter) + CAfter(s.consumers[j]) == Sum(s.consumers, CAfter) + CAfter(c)
    ensures CInside(s.consumers[j]) <= Sum(s.consumers, CInside)
    ensures CBefore(s.consumers[j]) <= Sum(s.consumers, CBefore)
    ensures CAfter(s.consumers[j]) <= Sum(s.consumers, CAfter)
  {
    SumUpdate(s.consumers, CInside, j, c);
    SumUpdate(s.consumers, CBefore, j, c);
    SumUpdate(s.consumers, CAfter, j, c);
    SumAtLeast(s.consumers, CInside, j);
    SumAtLeast(s.consumers, CBefore, j);
    SumAtLeast(s.consumers, CAfter, j);
  }

  lemma ProducerPermits(s: State, a: Action)
    requires Permits(s) && Enabled(s, a) && ByProducer(a)
    ensures Permits(Step(s, a))
  {
    ProducerCounts(s, a.i, Step(s, a).producers[a.i]);
    hide Sum, Slot;
  }

  lemma ConsumerPermits(s: State, a: Action)
    requires Permits(s) && Enabled(s, a) && !ByProducer(a)
    ensures Permits(Step(s, a))
  {
    ConsumerCounts(s, a.j, Step(s, a).consumers[a.j]);
    hide Sum, Slot;
  }

  lemma PurposeKept(s: State, a: Action)
    requires Purposeful(s) && Enabled(s, a)
    ensures Purposeful(Step(s, a))
  {
    hide Slot;
  }

  /** A permit to write means a free slot; a permit to take means an item. */
  lemma PermitsMeanRoom(s: State)
    requires Permits(s)
    ensures forall i :: 0 <= i < |s.producers| && s.producers[i].at.Critical? ==> s.count < |s.buffer|
    ensures forall j :: 0 <= j < |s.consumers| && s.consumers[j].at.Critical? ==> s.count > 0
  {
    forall i | 0 <= i < |s.producers| && s.producers[i].at.Critical? ensures s.count < |s.buffer| {
      SumAtLeast(s.producers, PBefore, i);
    }
    forall j | 0 <= j < |s.consumers| && s.consumers[j].at.Critical? ensures s.count > 0 {
      SumAtLeast(s.consumers, CBefore, j);
    }
  }

  lemma RingKept(s: State, a: Action)
    requires Inv(s) && Enabled(s, a)
    ensures Step(s, a).count == |Step(s, a).written| - |Step(s, a).taken|
    ensures var t := Step(s, a); Ring(t.buffer, t.inPos, t.outPos, t.written, t.taken)
  {
    PermitsMeanRoom(s);
    RingSize(s);
    hide Permits, Purposeful, Ring, Slot, Sum;
    if a.Write? {
      WriteRing(s.buffer, s.inPos, s.outPos, s.written, s.taken, Get(s.producers[a.i].items, 0));
    }
    if a.Take? {
      TakeRing(s.buffer, s.inPos, s.outPos, s.written, s.taken);
    }
  }

  lemma RingSize(s: State)
    requires Inv(s)
    ensures |s.buffer| > 0 && s.taken <= s.written && |s.written| <= |s.taken| + |s.buffer|
  {
  }

  lemma StepKeeps(s: State, a: Action)
    requires Inv(s) && Enabled(s, a)
    ensures Inv(Step(s, a)) && |Step(s, a).buffer| == |s.buffer|
  {
    if ByProducer(a) { ProducerPermits(s, a); } else { ConsumerPermits(s, a); }
    PurposeKept(s, a);
    RingKept(s, a);
    hide Permits, Purposeful, Ring, Slot, Sum;
  }

  // ---------------------------------------------------------------- termination

  /** Steps a producer still takes; its current item counts until it is written. */
  function PLeft(p: Producer): nat {
    var n := 5 * |p.items|;
    match p.at
    case Idle => n
    case Reserved => Decrement(n)
    case Critical => Decrement(Decrement(n))
    case Touched => n + 2
    case Unlocked => n + 1
  }

  function CLeft(c: Consumer): nat {
    var n := 5 * c.left;
    match c.at
    case Idle => n
    case Reserved => Decrement(n)
    case Critical => Decrement(Decrement(n))
    case Touched => n + 2
    case Unlocked => n + 1
  }

  function StepsLeft(s: State): nat {
    Sum(s.producers, PLeft) + Sum(s.consumers, CLeft)
  }

  lemma StepShrinks(s: State, a: Action)
    requires Purposeful(s) && Enabled(s, a)
    ensures StepsLeft(Step(s, a)) < StepsLeft(s)
  {
    hide Enabled, Step, StepsLeft, Purposeful;
    if ByProducer(a) { ProducerShrinks(s, a); } else { ConsumerShrinks(s, a); }
  }

  lemma ProducerShrinks(s: State, a: Action)
    requires Purposeful(s) && Enabled(s, a) && ByProducer(a)
    ensures StepsLeft(Step(s, a)) < StepsLeft(s)
  {
    SumUpdate(s.producers, PLeft, a.i, Step(s, a).producers[a.i]);
    hide Sum, Slot;
  }

  lemma ConsumerShrinks(s: State, a: Action)
    requires Purposeful(s) && Enabled(s, a) && !ByProducer(a)
    ensures StepsLeft(Step(s, a)) < StepsLeft(s)
  {
    SumUpdate(s.consumers, CLeft, a.j, Step(s, a).consumers[a.j]);
    hide Sum, Slot;
  }

  type Run = seq<Action>

  predicate CanRun(s: State, r: Run)
    decreases |r|
  {
    |r| == 0 || (Enabled(s, r[0]) && CanRun(Step(s, r[0]), r[1..]))
  }

  function Exec(s: State, r: Run): State
    requires CanRun(s, r)
    decreases |r|
  {
    if |r| == 0 then s else Exec(Step(s, r[0]), r[1..])
  }

  // -------------------------------------------------------------- how runs end

  function PItems(p: Producer): nat { |p.items| }
  function CTakes(c: Consumer): nat { c.left }

  /** Items are written or still to be written; takes are done or still to do. */
  lemma TotalsKept(s: State, a: Action)
    requires Purposeful(s) && Enabled(s, a)
    ensures |Step(s, a).written| + Sum(Step(s, a).producers, PItems) == |s.written| + Sum(s.producers, PItems)
    ensures |Step(s, a).taken| + Sum(Step(s, a).consumers, CTakes) == |s.taken| + Sum(s.consumers, CTakes)
  {
    hide Slot;
    var t := Step(s, a);
    if ByProducer(a) {
      SumUpdate(s.producers, PItems, a.i, t.producers[a.i]);
    } else {
      SumUpdate(s.consumers, CTakes, a.j, t.consumers[a.j]);
    }
    hide Sum;
  }

  lemma {:induction false} RunKeeps(s: State, r: Run)
    requires Inv(s) && CanRun(s, r)
    ensures var t := Exec(s, r);
      && Inv(t) && |t.buffer| == |s.buffer| && |r| + StepsLeft(t) <= StepsLeft(s)
      && |t.written| + Sum(t.producers, PItems) == |s.written| + Sum(s.producers, PItems)
      && |t.taken| + Sum(t.consumers, CTakes) == |s.taken| + Sum(s.consumers, CTakes)
    decreases |r|
  {
    if |r| > 0 {
      StepKeeps(s, r[0]);
      StepShrinks(s, r[0]);
      TotalsKept(s, r[0]);
      hide Inv, Enabled, Step, StepsLeft, Sum;
      RunKeeps(Step(s, r[0]), r[1..]);
    }
  }

  ghost predicate Stuck(s: State) {
    forall a :: !Enabled(s, a)
  }

  /** In a state that can go no further nobody is between its two waits. */
  lemma StuckMeansIdle(s: State)
    requires Inv(s) && Stuck(s)
    ensures forall i :: 0 <= i < |s.producers| ==> s.producers[i].at.Idle?
    ensures forall j :: 0 <= j < |s.consumers| ==> s.consumers[j].at.Idle?
  {
    NobodyInside(s);
    forall i | 0 <= i < |s.producers| ensures s.producers[i].at.Idle? {
      SumAtLeast(s.producers, PInside, i);
      assert !Enabled(s, Lock(i)) && !Enabled(s, SignalFull(i));
    }
    forall j | 0 <= j < |s.consumers| ensures s.consumers[j].at.Idle? {
      SumAtLeast(s.consumers, CInside, j);
      assert !Enabled(s, LockC(j)) && !Enabled(s, SignalEmpty(j));
    }
  }

  lemma NobodyInside(s: State)
    requires Permits(s) && Stuck(s)
    ensures Sum(s.producers, PInside) == 0 && Sum(s.consumers, CInside) == 0 && s.mutex == 1
  {
    forall i | 0 <= i < |s.producers| ensures PInside(s.producers[i]) == 0 {
      assert !Enabled(s, Write(i)) && !Enabled(s, Unlock(i));
    }
    forall j | 0 <= j < |s.consumers| ensures CInside(s.consumers[j]) == 0 {
      assert !Enabled(s, Take(j)) && !Enabled(s, UnlockC(j));
    }
    SumAll(s.producers, PInside, 0);
    SumAll(s.consumers, CInside, 0);
  }

  /** Then a producer with items left faces a full buffer, and a consumer with
    * takes left an empty one. */
  lemma StuckMeansFullOrEmpty(s: State)
    requires Inv(s) && Stuck(s)
    ensures Sum(s.producers, PItems) > 0 ==> s.count == |s.buffer|
    ensures Sum(s.consumers, CTakes) > 0 ==> s.count == 0
  {
    StuckMeansIdle(s);
    SumAll(s.producers, PBefore, 0);
    SumAll(s.producers, PAfter, 0);
    SumAll(s.consumers, CBefore, 0);
    SumAll(s.consumers, CAfter, 0);
    hide Ring;
    if Sum(s.producers, PItems) > 0 {
      var i := SumWitness(s.producers, PItems);
      assert !Enabled(s, WaitEmpty(i));
    }
    if Sum(s.consumers, CTakes) > 0 {
      var j := SumWitness(s.consumers, CTakes);
      assert !Enabled(s, WaitFull(j));
    }
  }

  // ------------------------------------------------------------ whose items

  /** Each producer's items are in the log in its own order, followed by those it
    * has still to write. */
  ghost predicate Faithful(s: State, items: seq<seq<int>>) {
    && |s.writers| == |s.written| && |s.producers| == |items|
    && (forall k :: 0 <= k < |s.writers| ==> s.writers[k] < |items|)
    && forall i :: 0 <= i < |items| ==> Of(s.written, s.writers, i) + s.producers[i].items == items[i]
  }

  lemma WriteFaithful(s: State, items: seq<seq<int>>, w: nat)
    requires Faithful(s, items) && Enabled(s, Write(w)) && s.producers[w].items != []
    ensures Faithful(Step(s, Write(w)), items)
  {
    hide Slot;
    var t, item := Step(s, Write(w)), s.producers[w].items[0];
    forall i | 0 <= i < |items| ensures Of(t.written, t.writers, i) + t.producers[i].items == items[i] {
      OfAppend(s.written, s.writers, item, w, i);
      assert i == w ==> s.producers[w].items == [item] + t.producers[w].items;
    }
  }

  lemma FaithfulKept(s: State, items: seq<seq<int>>, a: Action)
    requires Faithful(s, items) && Purposeful(s) && Enabled(s, a)
    ensures Faithful(Step(s, a), items)
  {
    if a.Write? {
      WriteFaithful(s, items, a.i);
    } else {
      SameItems(s, a);
      hide Step, Enabled, Purposeful, Of;
    }
  }

  lemma SameItems(s: State, a: Action)
    requires Enabled(s, a) && !a.Write?
    ensures var t := Step(s, a);
      && t.written == s.written && t.writers == s.writers && |t.producers| == |s.producers|
      && forall i :: 0 <= i < |s.producers| ==> t.producers[i].items == s.producers[i].items
  {
  }

  lemma InvPurposeful(s: State)
    requires Inv(s)
    ensures Purposeful(s)
  {
  }

  lemma {:induction false} RunFaithful(s: State, items: seq<seq<int>>, r: Run)
    requires Inv(s) && Faithful(s, items) && CanRun(s, r)
    ensures Faithful(Exec(s, r), items)
    decreases |r|
  {
    hide Inv, Enabled, Step, Faithful, Purposeful;
    if |r| > 0 {
      InvPurposeful(s);
      FaithfulKept(s, items, r[0]);
      StepKeeps(s, r[0]);
      RunFaithful(Step(s, r[0]), items, r[1..]);
    }
  }

  lemma InitFaithful(buffer: seq<int>, items: seq<seq<int>>, takes: seq<nat>)
    ensures Faithful(Init(buffer, items, takes), items)
  {
  }

  /** With nothing left to write, the log holds all the items, each producer's in order. */
  lemma AllWritten(s: State, items: seq<seq<int>>)
    requires Faithful(s, items) && Sum(s.producers, PItems) == 0
    ensures forall i :: 0 <= i < |items| ==> Of(s.written, s.writers, i) == items[i]
    ensures Bag(s.written) == Gather(items, Bag)
  {
    forall i | 0 <= i < |items| ensures Of(s.written, s.writers, i) == items[i] {
      SumAtLeast(s.producers, PItems, i);
    }
    LogIsShared(s.written, s.writers, items);
  }

  /** For any buffer, items and takes: every run is finite, what is taken is the
    * front of what is written, and what is written is, for each producer, the front
    * of its own items. A run ends with as much handed over as can be. */
  lemma EveryRunDelivers(buffer: seq<int>, items: seq<seq<int>>, takes: seq<nat>, r: Run, t: State)
    requires |buffer| > 0 && CanRun(Init(buffer, items, takes), r) && t == Exec(Init(buffer, items, takes), r)
    ensures |r| <= StepsLeft(Init(buffer, items, takes))
    ensures t.taken <= t.written && |t.written| <= |t.taken| + |buffer|
    ensures Faithful(t, items)
    ensures Stuck(t) ==>
      var made, wanted := Sum(Init(buffer, items, takes).producers, PItems), Sum(Init(buffer, items, takes).consumers, CTakes);
      |t.taken| == Min(made, wanted) && |t.written| == Min(made, wanted + |buffer|)
  {
    hide *;
    var s := Init(buffer, items, takes);
    InitInv(buffer, items, takes);
    RunKeeps(s, r);
    InitFaithful(buffer, items, takes);
    RunFaithful(s, items, r);
    RingSize(t);
    EmptyLogs(buffer, items, takes);
    if Stuck(t) { HowItEnds(t, Sum(s.producers, PItems), Sum(s.consumers, CTakes)); }
  }

  /** With equal totals the protocol does not deadlock: a run that can go no further
    * has handed over every item of every producer, each producer's in its order. */
  lemma EqualTotalsDeliverAll(buffer: seq<int>, items: seq<seq<int>>, takes: seq<nat>, r: Run, t: State)
    requires |buffer| > 0 && CanRun(Init(buffer, items, takes), r) && t == Exec(Init(buffer, items, takes), r)
    requires Sum(Init(buffer, items, takes).producers, PItems) == Sum(Init(buffer, items, takes).consumers, CTakes)
    requires Stuck(t)
    ensures t.taken == t.written && Bag(t.taken) == Gather(items, Bag)
    ensures |t.writers| == |t.taken| && forall i :: 0 <= i < |items| ==> Of(t.taken, t.writers, i) == items[i]
  {
    hide *;
    var s := Init(buffer, items, takes);
    EveryRunDelivers(buffer, items, takes, r, t);
    InitInv(buffer, items, takes);
    RunKeeps(s, r);
    EmptyLogs(buffer, items, takes);
    MinFacts(Sum(s.producers, PItems), |buffer|);
    FaithfulSizes(t, items);
    AllWritten(t, items);
  }

  lemma MinFacts(n: nat, b: nat)
    ensures Min(n, n) == n && Min(n, n + b) == n
  {
  }

  lemma FaithfulSizes(s: State, items: seq<seq<int>>)
    requires Faithful(s, items)
    ensures |s.writers| == |s.written|
  {
  }

  lemma MutexFree(s: State)
    requires Permits(s)
    ensures s.mutex > 0 <==>
      && (forall u: nat :: u < |s.producers| ==> PInside(s.producers[u]) == 0)
      && (forall v: nat :: v < |s.consumers| ==> CInside(s.consumers[v]) == 0)
  {
    if Sum(s.producers, PInside) > 0 { var u := SumWitness(s.producers, PInside); }
    if Sum(s.consumers, CInside) > 0 { var v := SumWitness(s.consumers, CInside); }
    forall u: nat | u < |s.producers| ensures PInside(s.producers[u]) <= Sum(s.producers, PInside) {
      SumAtLeast(s.producers, PInside, u);
    }
    forall v: nat | v < |s.consumers| ensures CInside(s.consumers[v]) <= Sum(s.consumers, CInside) {
      SumAtLeast(s.consumers, CInside, v);
    }
  }

  /** Some thread is at the ring. */
  ghost predicate RingBusy(s: State) {
    (exists u: nat :: u < |s.producers| && PInside(s.producers[u]) == 1) ||
    (exists v: nat :: v < |s.consumers| && CInside(s.consumers[v]) == 1)
  }

  /** A producer with items left waits exactly while every slot is taken (claimed by a
    * producer, full, or just emptied), or while another thread is at the ring. */
  lemma WhenProducersWait(s: State, i: nat)
    requires Inv(s) && i < |s.producers|
    ensures (forall a :: ByProducer(a) && a.i == i ==> !Enabled(s, a)) <==>
      || (s.producers[i].at.Idle? && s.producers[i].items == [])
      || (s.producers[i].at.Idle? &&
          Sum(s.producers, PBefore) + (|s.written| - |s.taken|) + Sum(s.consumers, CAfter) == |s.buffer|)
      || (s.producers[i].at.Reserved? && RingBusy(s))
  {
    MutexFree(s);
    hide Sum, Ring, Purposeful;
    var a := match s.producers[i].at
      case Idle => WaitEmpty(i)
      case Reserved => Lock(i)
      case Critical => Write(i)
      case Touched => Unlock(i)
      case Unlocked => SignalFull(i);
    assert ByProducer(a) && a.i == i;
  }

  /** A consumer waits exactly while every full slot is claimed by a consumer or not yet
    * announced by its producer, or while another thread is at the ring. */
  lemma WhenConsumersWait(s: State, j: nat)
    requires Inv(s) && j < |s.consumers|
    ensures (forall a :: !ByProducer(a) && a.j == j ==> !Enabled(s, a)) <==>
      || (s.consumers[j].at.Idle? && s.consumers[j].left == 0)
      || (s.consumers[j].at.Idle? && |s.written| - |s.taken| == Sum(s.producers, PAfter) + Sum(s.consumers, CBefore))
      || (s.consumers[j].at.Reserved? && RingBusy(s))
  {
    MutexFree(s);
    hide Sum, Ring, Purposeful;
    var a := match s.consumers[j].at
      case Idle => WaitFull(j)
      case Reserved => LockC(j)
      case Critical => Take(j)
      case Touched => UnlockC(j)
      case Unlocked => SignalEmpty(j);
    assert !ByProducer(a) && a.j == j;
  }

  /** In every reachable state empty, full and the permits in flight make up the
    * buffer size, and the count stays within it. */
  lemma PermitsAddUp(buffer: seq<int>, items: seq<seq<int>>, takes: seq<nat>, r: Run, t: State)
    requires |buffer| > 0 && CanRun(Init(buffer, items, takes), r) && t == Exec(Init(buffer, items, takes), r)
    ensures t.empty + t.full + Sum(t.producers, PBefore) + Sum(t.producers, PAfter)
          + Sum(t.consumers, CBefore) + Sum(t.consumers, CAfter) == |buffer|
    ensures 0 <= t.count <= |buffer|
  {
    hide *;
    InitInv(buffer, items, takes);
    RunKeeps(Init(buffer, items, takes), r);
    EmptyLogs(buffer, items, takes);
    InvPermits(t);
  }

  lemma InvPermits(t: State)
    requires Inv(t)
    ensures t.empty + t.full + Sum(t.producers, PBefore) + Sum(t.producers, PAfter)
          + Sum(t.consumers, CBefore) + Sum(t.consumers, CAfter) == |t.buffer|
    ensures 0 <= t.count <= |t.buffer|
  {
  }

  lemma EmptyLogs(buffer: seq<int>, items: seq<seq<int>>, takes: seq<nat>)
    ensures var s := Init(buffer, items, takes); s.buffer == buffer && s.written == [] && s.taken == []
  {
  }

  lemma HowItEnds(t: State, made: nat, wanted: nat)
    requires Inv(t) && Stuck(t)
    requires |t.written| + Sum(t.producers, PItems) == made && |t.taken| + Sum(t.consumers, CTakes) == wanted
    ensures |t.taken| == Min(made, wanted) && |t.written| == Min(made, wanted + |t.buffer|)
  {
    StuckMeansFullOrEmpty(t);
    RingSize(t);
    hide Enabled, Permits, Purposeful, Ring, Sum;
  }
}

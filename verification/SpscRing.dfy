/** The single-producer single-consumer ring of lockfree_queue.cpp as a transition
  * system. Each side loads the other's index with acquire and may get any value
  * published since its own last load; writing and reading a slot take time. */
module SpscRing {
  import opened RingSlots

  type Value = int

  // ------------------------------------------------------------ index masking

  /** Bitwise and of two words. */
  function And(a: nat, b: nat): nat
    decreases a
  {
    if a == 0 || b == 0 then 0 else (if a % 2 == 1 && b % 2 == 1 then 1 else 0) + 2 * And(a / 2, b / 2)
  }

  lemma {:induction false} AndSelf(a: nat)
    ensures And(a, a) == a
    decreases a
  {
    if a > 0 { AndSelf(a / 2); }
  }

  /** A capacity above 1 that passes the static_assert is even. */
  lemma {:induction false} Halve(c: nat)
    requires c > 1 && And(c, c - 1) == 0
    ensures c == 2 * (c / 2) && And(c / 2, c / 2 - 1) == 0
  {
    if c % 2 == 1 {
      assert (c - 1) / 2 == c / 2;
      AndSelf(c / 2);
    } else {
      assert (c - 1) / 2 == c / 2 - 1;
    }
  }

  lemma {:induction false} MaskStep(x: nat, d: nat)
    requires d > 0
    ensures And(x, 2 * d - 1) == x % 2 + 2 * And(x / 2, d - 1)
  {
    assert (2 * d - 1) / 2 == d - 1 && (2 * d - 1) % 2 == 1;
    if x == 0 { assert And(0, d - 1) == 0; }
  }

  lemma ModSplit(x: nat, d: nat)
    requires d > 0
    ensures x % (2 * d) == x % 2 + 2 * ((x / 2) % d)
  {
    var h := x / 2;
    var q, m := h / d, h % d;
    assert h == q * d + m;
    assert x == q * (2 * d) + (x % 2 + 2 * m);
    ModUnique(x, 2 * d, q, x % 2 + 2 * m);
  }

  lemma {:induction false} PowerMask(x: nat, c: nat)
    requires c > 0 && And(c, c - 1) == 0
    ensures And(x, c - 1) == x % c
    decreases c
  {
    if c == 1 {
      assert And(x, 0) == 0;
    } else {
      Halve(c);
      PowerMask(x / 2, c / 2);
      MaskStep(x, c / 2);
      ModSplit(x, c / 2);
    }
  }

  /** The static_assert admits exactly the capacities for which masking is the
    * remainder. */
  lemma MaskIsMod(c: nat)
    requires c > 0
    ensures And(c, c - 1) == 0 <==> forall x: nat :: And(x, c - 1) == x % c
  {
    if And(c, c - 1) == 0 {
      forall x: nat ensures And(x, c - 1) == x % c { PowerMask(x, c); }
    }
    if forall x: nat :: And(x, c - 1) == x % c {
      ModUnique(c, c, 1, 0);
    }
  }

  // -------------------------------------------------------------------- state

  datatype Producer =
    | Idle
    | Started(item: Value, w: nat, next: nat)
    | Clear(item: Value, w: nat, next: nat)
    | Writing(item: Value, w: nat, next: nat)
    | Written(item: Value, next: nat)

  datatype Consumer =
    | Ready
    | Asking(r: nat)
    | MayRead(r: nat)
    | Reading(r: nat)
    | Got(r: nat, item: Value)

  /** `writeLog` and `readLog` list every value stored to write_pos_ and read_pos_.
    * `sawRead` and `sawWrite` say how far each side has seen the other's list. */
  datatype State = State(cap: nat, buffer: seq<Value>, writeLog: seq<nat>, readLog: seq<nat>,
                         producer: Producer, consumer: Consumer, sawRead: nat, sawWrite: nat,
                         pushed: seq<Value>, popped: seq<Value>)

  datatype Action =
    | BeginPush(item: Value)
    | LoadReadPos(k: nat)
    | StartWrite(garbage: Value)
    | FinishWrite
    | StoreWritePos
    | BeginPop
    | LoadWritePos(k: nat)
    | StartRead
    | FinishRead
    | StoreReadPos

  predicate Enabled(s: State, a: Action) {
    match a
    case BeginPush(_) => s.producer.Idle? && |s.writeLog| > 0
    case LoadReadPos(k) => s.producer.Started? && s.sawRead <= k < |s.readLog|
    case StartWrite(_) => s.producer.Clear?
    case FinishWrite => s.producer.Writing?
    case StoreWritePos => s.producer.Written?
    case BeginPop => s.consumer.Ready? && |s.readLog| > 0
    case LoadWritePos(k) => s.consumer.Asking? && s.sawWrite <= k < |s.writeLog|
    case StartRead => s.consumer.MayRead?
    case FinishRead => s.consumer.Reading?
    case StoreReadPos => s.consumer.Got?
  }

  /** Capacity - 1 in size_t arithmetic: for capacity 0 it wraps to 64 ones. */
  function Mask(cap: nat): nat {
    if cap > 0 then cap - 1 else 0xFFFF_FFFF_FFFF_FFFF
  }

  function Put(b: seq<Value>, i: nat, v: Value): seq<Value> {
    if i < |b| then b[i := v] else b
  }

  function Step(s: State, a: Action): State
    requires Enabled(s, a)
  {
    var p, c := s.producer, s.consumer;
    match a
    case BeginPush(item) =>
      var w := s.writeLog[|s.writeLog| - 1];
      s.(producer := Started(item, w, And(w + 1, Mask(s.cap))))
    case LoadReadPos(k) =>
      s.(sawRead := k, producer := if p.next == s.readLog[k] then Idle else Clear(p.item, p.w, p.next))
    case StartWrite(garbage) => s.(buffer := Put(s.buffer, p.w, garbage), producer := Writing(p.item, p.w, p.next))
    case FinishWrite => s.(buffer := Put(s.buffer, p.w, p.item), producer := Written(p.item, p.next))
    case StoreWritePos => s.(writeLog := s.writeLog + [p.next], pushed := s.pushed + [p.item], producer := Idle)
    case BeginPop => s.(consumer := Asking(s.readLog[|s.readLog| - 1]))
    case LoadWritePos(k) =>
      s.(sawWrite := k, consumer := if c.r == s.writeLog[k] then Ready else MayRead(c.r))
    case StartRead => s.(consumer := Reading(c.r))
    case FinishRead => s.(consumer := Got(c.r, if c.r < |s.buffer| then s.buffer[c.r] else 0))
    case StoreReadPos =>
      s.(readLog := s.readLog + [And(c.r + 1, Mask(s.cap))], popped := s.popped + [c.item], consumer := Ready)
  }

  /** What the static_assert lets through. */
  predicate Admitted(cap: nat) {
    And(cap, Mask(cap)) == 0
  }

  predicate Capacity(cap: nat) {
    cap > 0 && Admitted(cap)
  }

  function Init(cap: nat, buffer: seq<Value>): State {
    State(cap, buffer, [0], [0], Idle, Ready, 0, 0, [], [])
  }

  type Run = seq<Action>

  predicate CanRun(s: State, r: Run)
    decreases |r|
  {
    |r| == 0 || (Enabled(s, r[0]) && CanRun(Step(s, r[0]), r[1..]))
  }

  function Exec(s: State, r: Run): State
    requires CanRun(s, r)
    decreases |r|
  {
    if |r| == 0 then s else Exec(Step(s, r[0]), r[1..])
  }

  // ---------------------------------------------------------------- invariant

  /** The k-th stored index is the k-th slot. */
  ghost predicate Indices(cap: nat, stored: seq<nat>, count: nat)
    requires cap > 0
  {
    |stored| == count + 1 && forall k :: 0 <= k < |stored| ==> stored[k] == Slot(cap, k)
  }

  /** Every item not yet popped sits in its slot. */
  ghost predicate Stored(cap: nat, buffer: seq<Value>, pushed: seq<Value>, from: nat)
    requires cap > 0
  {
    |buffer| == cap &&
    forall k: nat :: from <= k < |pushed| ==> Slot(cap, k) < cap && buffer[Slot(cap, k)] == pushed[k]
  }

  ghost predicate ProducerOk(s: State)
    requires s.cap > 0
  {
    var w := |s.pushed|;
    match s.producer
    case Idle => true
    case Started(_, i, next) => i == Slot(s.cap, w) && next == Slot(s.cap, w + 1)
    case Clear(_, i, next) => i == Slot(s.cap, w) && next == Slot(s.cap, w + 1) && w + 1 < s.sawRead + s.cap
    case Writing(_, i, next) => i == Slot(s.cap, w) && next == Slot(s.cap, w + 1) && w + 1 < s.sawRead + s.cap
    case Written(item, next) =>
      && next == Slot(s.cap, w + 1) && w + 1 < s.sawRead + s.cap
      && Slot(s.cap, w) < |s.buffer| && s.buffer[Slot(s.cap, w)] == item
  }

  ghost predicate ConsumerOk(s: State)
    requires s.cap > 0
  {
    var r := |s.popped|;
    match s.consumer
    case Ready => true
    case Asking(i) => i == Slot(s.cap, r)
    case MayRead(i) => i == Slot(s.cap, r) && r < s.sawWrite
    case Reading(i) => i == Slot(s.cap, r) && r < s.sawWrite
    case Got(i, item) => i == Slot(s.cap, r) && r < s.sawWrite && r < |s.pushed| && item == s.pushed[r]
  }

  /** What each side has seen of the other is true, if old. */
  ghost predicate Bounds(s: State) {
    && s.sawRead <= |s.popped| <= s.sawWrite <= |s.pushed|
    && |s.pushed| < s.sawRead + s.cap
  }

  ghost predicate Inv(s: State) {
    && Capacity(s.cap) && Bounds(s)
    && Indices(s.cap, s.writeLog, |s.pushed|) && Indices(s.cap, s.readLog, |s.popped|)
    && s.popped <= s.pushed
    && Stored(s.cap, s.buffer, s.pushed, |s.popped|)
    && ProducerOk(s) && ConsumerOk(s)
  }

  /** The bounded FIFO the ring stands for. */
  function Queue(s: State): seq<Value>
    requires |s.popped| <= |s.pushed|
  {
    s.pushed[|s.popped|..]
  }

  // ----------------------------------------------------------------- arithmetic

  lemma MaskSlot(cap: nat, x: nat)
    requires Capacity(cap)
    ensures And(x, cap - 1) == Slot(cap, x)
  {
    PowerMask(x, cap);
  }

  lemma SlotNext(cap: nat, k: nat)
    requires Capacity(cap)
    ensures And(Slot(cap, k) + 1, cap - 1) == Slot(cap, k + 1)
  {
    MaskSlot(cap, Slot(cap, k) + 1);
    SlotSuccessor(cap, k);
  }

  // -------------------------------------------------------------------- steps

  lemma InitInv(cap: nat, buffer: seq<Value>)
    requires Capacity(cap) && |buffer| == cap
    ensures Inv(Init(cap, buffer))
  {
    ModUnique(0, cap, 0, 0);
  }

  /** The push check fails exactly when the ring looks full from where the
    * producer sees the consumer. */
  lemma PushFailsIffSeenFull(s: State, a: Action)
    requires Inv(s) && a.LoadReadPos? && Enabled(s, a)
    ensures Step(s, a).producer.Idle? <==> |s.pushed| - a.k == s.cap - 1
  {
    assert s.readLog[a.k] == Slot(s.cap, a.k);
    SlotsDiffer(s.cap, a.k, |s.pushed| + 1);
  }

  /** The pop check fails exactly when all that the consumer sees is popped. */
  lemma PopFailsIffSeenEmpty(s: State, a: Action)
    requires Inv(s) && a.LoadWritePos? && Enabled(s, a)
    ensures Step(s, a).consumer.Ready? <==> a.k == |s.popped|
  {
    assert s.writeLog[a.k] == Slot(s.cap, a.k);
    SlotsDiffer(s.cap, |s.popped|, a.k);
  }

  /** The slot being written is none of those waiting to be read. */
  lemma WriteSlotIsFree(s: State, k: nat)
    requires Inv(s) && |s.popped| <= k < |s.pushed|
    requires s.producer.Clear? || s.producer.Writing?
    ensures Slot(s.cap, k) != s.producer.w < s.cap
  {
    SlotsDiffer(s.cap, k, |s.pushed|);
    SlotsDiffer(s.cap, |s.pushed|, |s.pushed|);
  }

  /** No slot is read and written at the same time. */
  lemma NoOverlap(s: State)
    requires Inv(s) && s.producer.Writing? && s.consumer.Reading?
    ensures s.producer.w != s.consumer.r
  {
    WriteSlotIsFree(s, |s.popped|);
  }

  /** Every slot changes hands through a published index: the producer has seen
    * the release of whatever the slot held before it overwrites it, and the
    * consumer has seen the publication of the item before it reads it. */
  lemma HandOver(s: State, k: nat)
    requires Inv(s) && k < |s.pushed|
    ensures s.producer.Writing? && Slot(s.cap, k) == s.producer.w ==> k < s.sawRead
    ensures s.consumer.Reading? ==> Slot(s.cap, |s.popped|) == s.consumer.r && |s.popped| < s.sawWrite
  {
    if |s.pushed| < k + s.cap { SlotsDiffer(s.cap, k, |s.pushed|); }
  }

  lemma ProducerKeeps(s: State, a: Action)
    requires Inv(s) && Enabled(s, a)
    requires a.BeginPush? || a.LoadReadPos? || a.StartWrite? || a.FinishWrite?
    ensures Inv(Step(s, a))
  {
    var t := Step(s, a);
    SlotsDiffer(s.cap, |s.pushed|, |s.pushed|);
    if a.BeginPush? {
      SlotNext(s.cap, |s.pushed|);
    } else if a.LoadReadPos? {
      PushFailsIffSeenFull(s, a);
    } else {
      forall k: nat | |s.popped| <= k < |s.pushed| ensures t.buffer[Slot(s.cap, k)] == s.pushed[k] {
        WriteSlotIsFree(s, k);
      }
    }
  }

  lemma StoreWriteKeeps(s: State)
    requires Inv(s) && Enabled(s, StoreWritePos)
    ensures Inv(Step(s, StoreWritePos))
    ensures Queue(Step(s, StoreWritePos)) == Queue(s) + [s.producer.item]
    ensures |Queue(Step(s, StoreWritePos))| <= s.cap - 1
  {
    SlotsDiffer(s.cap, |s.pushed|, |s.pushed|);
  }

  lemma ConsumerKeeps(s: State, a: Action)
    requires Inv(s) && Enabled(s, a)
    requires a.BeginPop? || a.LoadWritePos? || a.StartRead? || a.FinishRead?
    ensures Inv(Step(s, a))
  {
    if a.LoadWritePos? { PopFailsIffSeenEmpty(s, a); }
    assert a.FinishRead? ==> s.buffer[Slot(s.cap, |s.popped|)] == s.pushed[|s.popped|];
  }

  lemma StoreReadKeeps(s: State)
    requires Inv(s) && Enabled(s, StoreReadPos)
    ensures Inv(Step(s, StoreReadPos))
    ensures Queue(s) == [s.consumer.item] + Queue(Step(s, StoreReadPos))
  {
    SlotNext(s.cap, |s.popped|);
    assert s.popped + [s.consumer.item] == s.pushed[..|s.popped| + 1];
  }

  lemma StepKeeps(s: State, a: Action)
    requires Inv(s) && Enabled(s, a)
    ensures Inv(Step(s, a))
  {
    hide Inv, Enabled, Step;
    match a {
      case StoreWritePos => StoreWriteKeeps(s);
      case StoreReadPos => StoreReadKeeps(s);
      case BeginPop => ConsumerKeeps(s, a);
      case LoadWritePos(_) => ConsumerKeeps(s, a);
      case StartRead => ConsumerKeeps(s, a);
      case FinishRead => ConsumerKeeps(s, a);
      case _ => ProducerKeeps(s, a);
    }
  }

  lemma {:induction false} RunKeeps(s: State, r: Run)
    requires Inv(s) && CanRun(s, r)
    ensures Inv(Exec(s, r))
    decreases |r|
  {
    hide Inv, Enabled, Step;
    if |r| > 0 {
      StepKeeps(s, r[0]);
      RunKeeps(Step(s, r[0]), r[1..]);
    }
  }

  // --------------------------------------------------------- bounded FIFO

  /** The specification: a queue of at most `bound` items. */
  datatype Fifo = Fifo(items: seq<Value>, bound: nat)

  /** Every step does to the queue what a bounded FIFO allows: a finished push
    * appends where there is room, a finished pop removes the front, any other
    * step leaves it alone. */
  ghost predicate FifoStep(f: Fifo, g: Fifo, a: Action, item: Value) {
    && g.bound == f.bound && |g.items| <= g.bound
    && match a
       case StoreWritePos => |f.items| < f.bound && g.items == f.items + [item]
       case StoreReadPos => |f.items| > 0 && f.items == [item] + g.items
       case _ => g.items == f.items
  }

  ghost function Abs(s: State): Fifo
    requires |s.popped| <= |s.pushed| && s.cap > 0
  {
    Fifo(Queue(s), s.cap - 1)
  }

  /** The item an action publishes or hands out. */
  function Item(s: State, a: Action): Value
    requires Enabled(s, a)
  {
    match a
    case StoreWritePos => s.producer.item
    case StoreReadPos => s.consumer.item
    case _ => 0
  }

  lemma RingRefinesFifo(s: State, a: Action)
    requires Inv(s) && Enabled(s, a)
    ensures Inv(Step(s, a))
    ensures FifoStep(Abs(s), Abs(Step(s, a)), a, Item(s, a))
  {
    StepKeeps(s, a);
    if a.StoreWritePos? { StoreWriteKeeps(s); }
    if a.StoreReadPos? { StoreReadKeeps(s); }
  }

  // ---------------------------------------------------- what callers pass and get

  /** The item of the call of `try_push` under way, or of the last one. */
  function InHand(p: Producer, last: Value): Value {
    if p.Idle? then last else p.item
  }

  /** The items of the calls in r that got as far as their store of write_pos_, in
    * order; `last` is the argument of the newest call before r. */
  function Stores(r: Run, last: Value): seq<Value> {
    if |r| == 0 then []
    else
      match r[0]
      case BeginPush(item) => Stores(r[1..], item)
      case StoreWritePos => [last] + Stores(r[1..], last)
      case _ => Stores(r[1..], last)
  }

  lemma HandKept(s: State, a: Action, last: Value)
    requires Enabled(s, a) && InHand(s.producer, last) == last
    ensures var t := Step(s, a);
      && (a.StoreWritePos? ==> t.pushed == s.pushed + [last])
      && (!a.StoreWritePos? ==> t.pushed == s.pushed)
      && (a.BeginPush? ==> InHand(t.producer, a.item) == a.item)
      && (!a.BeginPush? ==> InHand(t.producer, last) == last)
  {
    hide And, Mask;
  }

  /** What is pushed is what callers passed. */
  lemma {:induction false} PushedIsPassed(s: State, r: Run, last: Value)
    requires CanRun(s, r) && InHand(s.producer, last) == last
    ensures Exec(s, r).pushed == s.pushed + Stores(r, last)
    decreases |r|
  {
    if |r| > 0 {
      hide Step, Enabled, InHand;
      HandKept(s, r[0], last);
      PushedIsPassed(Step(s, r[0]), r[1..], if r[0].BeginPush? then r[0].item else last);
    }
  }

  predicate ByProducer(a: Action) {
    a.BeginPush? || a.LoadReadPos? || a.StartWrite? || a.FinishWrite? || a.StoreWritePos?
  }

  function PushLeft(p: Producer): nat {
    match p
    case Idle => 0
    case Started(_, _, _) => 4
    case Clear(_, _, _) => 3
    case Writing(_, _, _) => 2
    case Written(_, _) => 1
  }

  function PopLeft(c: Consumer): nat {
    match c
    case Ready => 0
    case Asking(_) => 4
    case MayRead(_) => 3
    case Reading(_) => 2
    case Got(_, _) => 1
  }

  /** Neither side ever waits: a call under way can take its next step, the load
    * among them may return the newest index, every step of its own brings the call
    * nearer to its end, and no step of the other side sets it back. */
  lemma CallsNeverWait(s: State, a: Action)
    requires Inv(s) && Enabled(s, a)
    ensures exists b :: ByProducer(b) && Enabled(s, b) && (b.LoadReadPos? ==> b.k == |s.popped|)
    ensures exists b :: !ByProducer(b) && Enabled(s, b) && (b.LoadWritePos? ==> b.k == |s.pushed|)
    ensures ByProducer(a) && !a.BeginPush? ==> PushLeft(Step(s, a).producer) < PushLeft(s.producer)
    ensures !ByProducer(a) && !a.BeginPop? ==> PopLeft(Step(s, a).consumer) < PopLeft(s.consumer)
    ensures if ByProducer(a) then Step(s, a).consumer == s.consumer else Step(s, a).producer == s.producer
  {
    var b := match s.producer
      case Idle => BeginPush(0)
      case Started(_, _, _) => LoadReadPos(|s.popped|)
      case Clear(_, _, _) => StartWrite(0)
      case Writing(_, _, _) => FinishWrite
      case Written(_, _) => StoreWritePos;
    assert ByProducer(b) && Enabled(s, b);
    var c := match s.consumer
      case Ready => BeginPop
      case Asking(_) => LoadWritePos(|s.pushed|)
      case MayRead(_) => StartRead
      case Reading(_) => FinishRead
      case Got(_, _) => StoreReadPos;
    assert !ByProducer(c) && Enabled(s, c);
    hide And, Mask, Stored, Slot;
  }

  /** In every interleaving, with every choice of stale loads: what was popped is
    * the front of what was pushed, which is exactly the items passed to the calls
    * that found room, in order, and at most Capacity - 1 items wait. */
  lemma RingIsFifo(cap: nat, buffer: seq<Value>, r: Run)
    requires Capacity(cap) && |buffer| == cap && CanRun(Init(cap, buffer), r)
    ensures var t := Exec(Init(cap, buffer), r);
      && t.pushed == Stores(r, 0)
      && t.popped <= t.pushed && |t.pushed| - |t.popped| <= cap - 1
      && (forall k :: |t.popped| <= k < |t.pushed| ==> Slot(cap, k) < |t.buffer| && t.buffer[Slot(cap, k)] == t.pushed[k])
      && !(t.producer.Writing? && t.consumer.Reading? && t.producer.w == t.consumer.r)
  {
    InitInv(cap, buffer);
    RunKeeps(Init(cap, buffer), r);
    CapKept(Init(cap, buffer), r);
    PushedIsPassed(Init(cap, buffer), r, 0);
    var t := Exec(Init(cap, buffer), r);
    if t.producer.Writing? && t.consumer.Reading? { NoOverlap(t); }
  }

  lemma {:induction false} CapKept(s: State, r: Run)
    requires CanRun(s, r)
    ensures Exec(s, r).cap == s.cap
    decreases |r|
  {
    if |r| > 0 { CapKept(Step(s, r[0]), r[1..]); }
  }

  // ------------------------------------------------------- which capacities work

  /** Nobody is about to touch a slot outside the buffer. */
  predicate InBounds(s: State) {
    && (s.producer.Writing? ==> s.producer.w < |s.buffer|)
    && (s.consumer.Reading? ==> s.consumer.r < |s.buffer|)
  }

  ghost predicate AlwaysInBounds(cap: nat) {
    forall buffer: seq<Value>, r: Run :: |buffer| == cap && CanRun(Init(cap, buffer), r) ==>
      InBounds(Exec(Init(cap, buffer), r))
  }

  lemma InvInBounds(s: State)
    requires Inv(s)
    ensures InBounds(s)
  {
    SlotsDiffer(s.cap, |s.pushed|, |s.pushed|);
    SlotsDiffer(s.cap, |s.popped|, |s.popped|);
  }

  /** With capacity 0 the very first push finds room and writes to slot 0. */
  lemma ZeroCapacityOverruns(v: Value) returns (r: Run)
    ensures CanRun(Init(0, []), r) && !InBounds(Exec(Init(0, []), r))
  {
    r := [BeginPush(v), LoadReadPos(0), StartWrite(v)];
    var s0 := Init(0, []);
    assert And(0, 0x7FFF_FFFF_FFFF_FFFF) == 0;
    assert And(0 + 1, Mask(0)) == 1;
    var s1 := Step(s0, r[0]);
    var s2 := Step(s1, r[1]);
    assert s2.producer == Clear(v, 0, 1);
    var s3 := Step(s2, r[2]);
    assert r[1..][1..] == [StartWrite(v)] && r[1..][1..][1..] == [];
    assert CanRun(s3, []) && Exec(s3, []) == s3;
    assert CanRun(s2, r[1..][1..]) && Exec(s2, r[1..][1..]) == s3;
    assert CanRun(s1, r[1..]) && Exec(s1, r[1..]) == s3;
  }

  /** Of the capacities the static_assert admits, exactly the positive ones keep
    * every access of every run inside the buffer. */
  lemma AdmittedSafeIffPositive(cap: nat)
    requires Admitted(cap)
    ensures AlwaysInBounds(cap) <==> cap > 0
  {
    if cap > 0 {
      forall buffer: seq<Value>, r: Run | |buffer| == cap && CanRun(Init(cap, buffer), r)
        ensures InBounds(Exec(Init(cap, buffer), r))
      {
        InitInv(cap, buffer);
        RunKeeps(Init(cap, buffer), r);
        InvInBounds(Exec(Init(cap, buffer), r));
      }
    } else {
      var r := ZeroCapacityOverruns(0);
      var none: seq<Value> := [];
      assert |none| == cap && !InBounds(Exec(Init(cap, none), r));
    }
  }
}

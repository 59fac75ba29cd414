/** The lock-free stacks of aba_problem.cpp as a transition system: one step per
  * atomic access, any number of threads, addresses reused after delete, and an
  * arbitrary value returned by a read through a freed pointer. `tagged` selects
  * SafeStack / SafeLockFreeStack; otherwise the head is the bare pointer of
  * UnsafeLockFreeStack. */
module TaggedStack {
  import opened Histories

  type Value = int

  /** Address 0 is the null pointer. */
  datatype Node = Node(data: Value, next: nat)

  /** The atomic head; without tagging the tag stays 0. */
  datatype Head = Head(ptr: nat, tag: nat)

  datatype Op = Pushed(v: Value) | Popped(v: Value)

  /** Where a thread stands. `ver` is the version of the head it last loaded, and
    * `at` the log index of its own pop; both only record history. */
  datatype Local =
    | Idle
    | Allocated(node: nat)
    | Linking(node: nat, seen: Head, ver: nat)
    | PushCas(node: nat, seen: Head, ver: nat)
    | Popping(seen: Head, ver: nat)
    | PopCas(seen: Head, ver: nat, next: nat)
    | Taking(node: nat, at: nat)
    | Deleting(node: nat, val: Value, at: nat)

  /** What a pop call returned, and the log index of its exchange. */
  datatype Result = Result(at: nat, val: Value)

  /** Who pushed a node, and the version of the head its push published. */
  datatype Birth = Birth(who: nat, ver: nat)

  /** `mem` holds the live nodes. `hist` lists every value the head has had, `log`
    * the successful exchanges in order, `chain` the nodes the stack should hold,
    * `asked` the values passed to push, and `results` what pops have returned.
    * `known` is the newest version of the head each thread has seen, `acquired` the
    * newest whose publisher's writes it is ordered after. `ordered` says whether a
    * failed exchange orders the reads that follow it, as memory_order_acquire, or a
    * machine that keeps dependent reads in order, would; the source asks for
    * memory_order_relaxed, which promises no such thing. */
  datatype State = State(mem: map<nat, Node>, head: Head, threads: seq<Local>,
                         hist: seq<Head>, log: seq<Op>, chain: seq<nat>,
                         known: seq<nat>, asked: seq<Value>, results: seq<Result>,
                         ordered: bool, acquired: seq<nat>, births: map<nat, Birth>)

  datatype Action =
    | New(v: Value, addr: nat)
    | LoadForPush(k: nat)
    | Link
    | CasPush
    | CasPushFails(k: nat)
    | LoadForPop(k: nat)
    | ReturnEmpty
    | ReadNext(next: nat)
    | CasPop
    | CasPopFails(k: nat)
    | Take(v: Value)
    | Delete

  // -------------------------------------------------------------------- steps

  /** Coherence: a load may return an old head, but none older than one this
    * thread has seen before. */
  predicate MayLoad(s: State, i: nat, k: nat) {
    (i < |s.known| ==> s.known[i] <= k) && k < |s.hist|
  }

  /** Thread i pushed the node itself, or is ordered after the push that did. */
  predicate Visible(s: State, i: nat, node: nat) {
    node in s.births && (s.births[node].who == i || (i < |s.acquired| && s.births[node].ver <= s.acquired[i]))
  }

  predicate Enabled(s: State, i: nat, a: Action)
    requires i < |s.threads|
  {
    var l := s.threads[i];
    match a
    case New(_, addr) => l.Idle? && addr != 0 && addr !in s.mem
    case LoadForPush(k) => l.Allocated? && MayLoad(s, i, k)
    case Link => l.Linking?
    case CasPush => l.PushCas? && s.head == l.seen
    case CasPushFails(k) => l.PushCas? && MayLoad(s, i, k)
    case LoadForPop(k) => l.Idle? && MayLoad(s, i, k)
    case ReturnEmpty => l.Popping? && l.seen.ptr == 0
    case ReadNext(x) =>
      l.Popping? && l.seen.ptr != 0 && (l.seen.ptr in s.mem && Visible(s, i, l.seen.ptr) ==> x == s.mem[l.seen.ptr].next)
    case CasPop => l.PopCas? && s.head == l.seen
    case CasPopFails(k) => l.PopCas? && MayLoad(s, i, k)
    case Take(v) => l.Taking? && (l.node in s.mem && Visible(s, i, l.node) ==> v == s.mem[l.node].data)
    case Delete => l.Deleting?
  }

  function Bump(tagged: bool, h: Head, p: nat): Head {
    Head(p, if tagged then h.tag + 1 else 0)
  }

  /** The data a live node holds. */
  function DataAt(mem: map<nat, Node>, a: nat): Value {
    if a in mem then mem[a].data else 0
  }

  /** The effect of one step of thread i. A load, and a failing exchange, may
    * return an old head; an exchange compares the current one. An exchange is
    * logged with the data of the node it put on or took off. */
  function Step(tagged: bool, s: State, i: nat, a: Action): State
    requires i < |s.threads| && Enabled(s, i, a)
  {
    var l := s.threads[i];
    match a
    case New(v, addr) => At(s.(mem := s.mem[addr := Node(v, 0)], asked := s.asked + [v]), i, Allocated(addr))
    case LoadForPush(k) => At(Sees(s, i, k), i, Linking(l.node, s.hist[k], k))
    case Link =>
      var m := if l.node in s.mem then s.mem[l.node := s.mem[l.node].(next := l.seen.ptr)] else s.mem;
      At(s.(mem := m), i, PushCas(l.node, l.seen, l.ver))
    case CasPush =>
      var t := Publish(s, Bump(tagged, l.seen, l.node), Pushed(DataAt(s.mem, l.node)), [l.node] + s.chain);
      At(Sees(t, i, |s.hist|).(births := s.births[l.node := Birth(i, |s.hist|)]), i, Idle)
    case CasPushFails(k) => At(Sees(s, i, k), i, Linking(l.node, s.hist[k], k))
    case LoadForPop(k) => At(Acquires(Sees(s, i, k), i, k), i, Popping(s.hist[k], k))
    case ReturnEmpty => At(s, i, Idle)
    case ReadNext(x) => At(s, i, PopCas(l.seen, l.ver, x))
    case CasPop =>
      var t := Publish(s, Bump(tagged, l.seen, l.next), Popped(DataAt(s.mem, l.seen.ptr)),
                       if |s.chain| > 0 then s.chain[1..] else []);
      At(Sees(t, i, |s.hist|), i, Taking(l.seen.ptr, |s.log|))
    case CasPopFails(k) =>
      var t := Sees(s, i, k);
      At(if s.ordered then Acquires(t, i, k) else t, i, Popping(s.hist[k], k))
    case Take(v) => At(s, i, Deleting(l.node, v, l.at))
    case Delete =>
      At(s.(mem := s.mem - {l.node}, births := s.births - {l.node}, results := s.results + [Result(l.at, l.val)]), i, Idle)
  }

  function At(s: State, i: nat, l: Local): State
    requires i < |s.threads|
  {
    s.(threads := s.threads[i := l])
  }

  function Sees(s: State, i: nat, k: nat): State {
    s.(known := if i < |s.known| then s.known[i := k] else s.known)
  }

  function Acquires(s: State, i: nat, k: nat): State {
    s.(acquired := if i < |s.acquired| then s.acquired[i := k] else s.acquired)
  }

  function Publish(s: State, h: Head, op: Op, chain: seq<nat>): State {
    s.(head := h, hist := s.hist + [h], log := s.log + [op], chain := chain)
  }

  function Init(n: nat, ordered: bool): State {
    State(map[], Head(0, 0), seq(n, _ => Idle), [Head(0, 0)], [], [], seq(n, _ => 0), [], [],
          ordered, seq(n, _ => 0), map[])
  }

  /** A run: who moves, and how. */
  type Run = seq<(nat, Action)>

  predicate CanRun(tagged: bool, s: State, r: Run)
    decreases |r|
  {
    |r| == 0 ||
    (r[0].0 < |s.threads| && Enabled(s, r[0].0, r[0].1) && CanRun(tagged, Step(tagged, s, r[0].0, r[0].1), r[1..]))
  }

  function Exec(tagged: bool, s: State, r: Run): State
    requires CanRun(tagged, s, r)
    decreases |r|
  {
    if |r| == 0 then s else Exec(tagged, Step(tagged, s, r[0].0, r[0].1), r[1..])
  }

  // ---------------------------------------------------- the sequential stack

  /** What a sequential stack holds after the logged operations, top first. */
  function Contents(log: seq<Op>): seq<Value> {
    if |log| == 0 then []
    else
      var c := Contents(log[..|log| - 1]);
      match log[|log| - 1]
      case Pushed(v) => [v] + c
      case Popped(_) => if |c| > 0 then c[1..] else []
  }

  /** Every logged pop removes the value a sequential stack has on top. */
  predicate Legal(log: seq<Op>) {
    |log| == 0 ||
    (var c := Contents(log[..|log| - 1]);
     Legal(log[..|log| - 1]) && (log[|log| - 1].Popped? ==> |c| > 0 && c[0] == log[|log| - 1].v))
  }

  function PushedBag(log: seq<Op>): multiset<Value> {
    if |log| == 0 then multiset{}
    else PushedBag(log[..|log| - 1]) + if log[|log| - 1].Pushed? then multiset{log[|log| - 1].v} else multiset{}
  }

  function PoppedBag(log: seq<Op>): multiset<Value> {
    if |log| == 0 then multiset{}
    else PoppedBag(log[..|log| - 1]) + if log[|log| - 1].Popped? then multiset{log[|log| - 1].v} else multiset{}
  }

  predicate Conserved(log: seq<Op>) {
    PushedBag(log) == PoppedBag(log) + multiset(Contents(log))
  }

  /** Nothing is lost or duplicated by a legal history. */
  lemma {:induction false} Conservation(log: seq<Op>)
    requires Legal(log)
    ensures PushedBag(log) == PoppedBag(log) + multiset(Contents(log))
  {
    if |log| > 0 {
      Conservation(log[..|log| - 1]);
      ConservedNext(log);
    }
  }

  lemma ConservedNext(log: seq<Op>)
    requires |log| > 0 && Legal(log) && Conserved(log[..|log| - 1])
    ensures Conserved(log)
  {
    hide *;
    var l, op := log[..|log| - 1], log[|log| - 1];
    LegalLast(log);
    assert log == l + [op];
    if op.Pushed? { ConservedPush(l, op.v); } else { ConservedPop(l); }
  }

  lemma LegalLast(log: seq<Op>)
    requires |log| > 0 && Legal(log)
    ensures var l, op := log[..|log| - 1], log[|log| - 1];
      op.Popped? ==> |Contents(l)| > 0 && op == Popped(Contents(l)[0])
  {
    hide Contents;
  }

  lemma ConservedPush(l: seq<Op>, v: Value)
    requires Conserved(l)
    ensures Conserved(l + [Pushed(v)])
  {
    hide Contents, Legal, PushedBag, PoppedBag;
    LogPush(l, v);
    BagPush(l, v);
    BagCons(v, Contents(l));
    AddToBoth(PushedBag(l), PoppedBag(l), multiset(Contents(l)), multiset{v});
  }

  lemma ConservedPop(l: seq<Op>)
    requires Conserved(l) && |Contents(l)| > 0
    ensures Conserved(l + [Popped(Contents(l)[0])])
  {
    hide Contents, Legal, PushedBag, PoppedBag;
    var c := Contents(l);
    LogPop(l);
    BagPop(l, c[0]);
    assert c == [c[0]] + c[1..];
    BagCons(c[0], c[1..]);
    PassOver(PoppedBag(l), multiset{c[0]}, multiset(c[1..]));
  }

  lemma BagCons(v: Value, c: seq<Value>)
    ensures multiset([v] + c) == multiset{v} + multiset(c)
  {
  }

  lemma AddToBoth(all: multiset<Value>, out: multiset<Value>, rest: multiset<Value>, x: multiset<Value>)
    requires all == out + rest
    ensures all + x == out + (x + rest)
  {
  }

  lemma PassOver(out: multiset<Value>, x: multiset<Value>, rest: multiset<Value>)
    ensures out + (x + rest) == (out + x) + rest
  {
  }

  // ---------------------------------------------------------------- invariant

  /** Following next pointers from p visits exactly `chain`, all of it live. */
  ghost predicate Linked(mem: map<nat, Node>, p: nat, chain: seq<nat>)
    decreases |chain|
  {
    if |chain| == 0 then p == 0
    else p == chain[0] && p != 0 && p in mem && Linked(mem, mem[p].next, chain[1..])
  }

  ghost function Data(mem: map<nat, Node>, chain: seq<nat>): seq<Value> {
    if |chain| == 0 then []
    else [if chain[0] in mem then mem[chain[0]].data else 0] + Data(mem, chain[1..])
  }

  /** The heap holds a well-formed list with the contents of the sequential stack. */
  ghost predicate Represents(s: State) {
    Linked(s.mem, s.head.ptr, s.chain) && Data(s.mem, s.chain) == Contents(s.log)
  }

  /** The node a thread has to itself: not yet pushed, or popped and not yet deleted. */
  function Owned(l: Local): nat {
    match l
    case Allocated(node) => node
    case Linking(node, _, _) => node
    case PushCas(node, _, _) => node
    case Taking(node, _) => node
    case Deleting(node, _, _) => node
    case _ => 0
  }

  /** Every live node is in the chain or owned by exactly one thread. */
  ghost predicate Ownership(mem: map<nat, Node>, threads: seq<Local>, chain: seq<nat>) {
    && 0 !in mem
    && (forall i, j :: 0 <= i < j < |chain| ==> chain[i] != chain[j])
    && (forall i, j :: 0 <= i < j < |threads| && Owned(threads[i]) != 0 ==> Owned(threads[i]) != Owned(threads[j]))
    && (forall i :: 0 <= i < |threads| && Owned(threads[i]) != 0 ==> Owned(threads[i]) in mem && Owned(threads[i]) !in chain)
    && (forall a :: a in mem ==> a in chain || exists i :: 0 <= i < |threads| && Owned(threads[i]) == a)
  }

  /** Versions of the head: in step with the log, and null exactly when empty. */
  ghost predicate Versions(tagged: bool, s: State) {
    && |s.hist| == |s.log| + 1 && s.head == s.hist[|s.log|]
    && (forall k :: 0 <= k < |s.hist| ==> s.hist[k].tag == if tagged then k else 0)
    && (forall k :: 0 <= k < |s.hist| ==> (s.hist[k].ptr == 0 <==> Contents(s.log[..k]) == []))
  }

  /** What a thread's local variables say about the shared state. */
  ghost predicate Sound(s: State, l: Local) {
    match l
    case Idle => true
    case Allocated(node) => node != 0
    case Linking(node, seen, ver) => node != 0 && ver < |s.hist| && s.hist[ver] == seen
    case PushCas(node, seen, ver) =>
      && node != 0 && ver < |s.hist| && s.hist[ver] == seen
      && node in s.mem && s.mem[node].next == seen.ptr
    case Popping(seen, ver) => ver < |s.hist| && s.hist[ver] == seen
    case PopCas(seen, ver, next) =>
      && ver < |s.hist| && s.hist[ver] == seen && seen.ptr != 0
      && (ver == |s.log| ==> seen.ptr in s.mem && next == s.mem[seen.ptr].next)
    case Taking(node, at) =>
      && node != 0 && at < |s.log| && s.log[at].Popped?
      && node in s.mem && s.mem[node].data == s.log[at].v
    case Deleting(node, _, at) => node != 0 && at < |s.log| && s.log[at].Popped?
  }

  ghost predicate AllSound(s: State) {
    forall i :: 0 <= i < |s.threads| ==> Sound(s, s.threads[i])
  }

  ghost predicate Inv(tagged: bool, s: State) {
    && Represents(s) && Ownership(s.mem, s.threads, s.chain) && Versions(tagged, s)
    && Legal(s.log) && AllSound(s)
  }

  /** The next pointer a pop is about to install is still its head's next. */
  predicate FreshPop(s: State, i: nat)
    requires i < |s.threads|
  {
    var l := s.threads[i];
    l.PopCas? && s.head == l.seen ==> l.seen.ptr in s.mem && l.next == s.mem[l.seen.ptr].next
  }

  // -------------------------------------------------------- chains and frames

  lemma {:induction false} LinkedFrame(m: map<nat, Node>, w: map<nat, Node>, p: nat, chain: seq<nat>)
    requires Linked(m, p, chain)
    requires forall a :: a in chain && a in m ==> a in w && w[a] == m[a]
    ensures Linked(w, p, chain) && Data(w, chain) == Data(m, chain)
    decreases |chain|
  {
    if |chain| > 0 {
      assert chain[0] in chain && forall a :: a in chain[1..] ==> a in chain;
      LinkedFrame(m, w, m[p].next, chain[1..]);
    }
  }

  lemma {:induction false} LinkedLive(m: map<nat, Node>, p: nat, chain: seq<nat>)
    requires Linked(m, p, chain)
    ensures forall a :: a in chain ==> a in m && a != 0
    ensures |Data(m, chain)| == |chain|
    decreases |chain|
  {
    if |chain| > 0 {
      LinkedLive(m, m[p].next, chain[1..]);
      assert chain == [chain[0]] + chain[1..];
    }
  }

  /** A step that publishes nothing and leaves the chain's nodes alone. */
  lemma QuietStep(tagged: bool, s: State, t: State, i: nat, l: Local)
    requires Inv(tagged, s) && i < |s.threads|
    requires t == s.(mem := t.mem, threads := s.threads[i := l], known := t.known, asked := t.asked,
                    results := t.results, acquired := t.acquired, births := t.births)
    requires Ownership(t.mem, t.threads, s.chain)
    requires forall a :: a in s.mem && a != Owned(s.threads[i]) ==> a in t.mem && t.mem[a] == s.mem[a]
    requires Sound(t, l)
    ensures Inv(tagged, t)
  {
    LinkedFrame(s.mem, t.mem, s.head.ptr, s.chain);
    LinkedLive(s.mem, s.head.ptr, s.chain);
    forall j | 0 <= j < |s.threads| ensures Sound(t, t.threads[j]) {
      if j != i {
        OthersSound(tagged, s, t, i, l, j);
      }
    }
  }

  lemma OthersSound(tagged: bool, s: State, t: State, i: nat, l: Local, j: nat)
    requires Inv(tagged, s) && i < |s.threads| && j < |s.threads| && j != i
    requires t == s.(mem := t.mem, threads := s.threads[i := l], known := t.known, asked := t.asked,
                    results := t.results, acquired := t.acquired, births := t.births)
    requires forall a :: a in s.mem && a != Owned(s.threads[i]) ==> a in t.mem && t.mem[a] == s.mem[a]
    ensures Sound(t, s.threads[j])
  {
    var o := s.threads[j];
    assert Sound(s, o);
    assert Owned(o) != 0 ==> Owned(o) != Owned(s.threads[i]);
    if o.PopCas? && o.ver == |s.log| {
      assert o.seen == s.head;
      assert |s.chain| > 0 && o.seen.ptr == s.chain[0];
    }
  }

  // ------------------------------------------------------------------ ownership

  lemma OwnsSame(mem: map<nat, Node>, w: map<nat, Node>, threads: seq<Local>, chain: seq<nat>, i: nat, l: Local)
    requires Ownership(mem, threads, chain) && i < |threads| && Owned(l) == Owned(threads[i])
    requires w.Keys == mem.Keys
    ensures Ownership(w, threads[i := l], chain)
  {
    var ts := threads[i := l];
    assert forall j :: 0 <= j < |ts| ==> Owned(ts[j]) == Owned(threads[j]);
    forall a | a in w ensures a in chain || exists j :: 0 <= j < |ts| && Owned(ts[j]) == a {
      if j :| 0 <= j < |threads| && Owned(threads[j]) == a { assert Owned(ts[j]) == a; }
    }
  }

  lemma OwnsNew(mem: map<nat, Node>, w: map<nat, Node>, threads: seq<Local>, chain: seq<nat>, i: nat, addr: nat)
    requires Ownership(mem, threads, chain) && i < |threads| && Owned(threads[i]) == 0
    requires addr != 0 && addr !in mem && w.Keys == mem.Keys + {addr}
    requires forall a :: a in chain ==> a in mem
    ensures Ownership(w, threads[i := Allocated(addr)], chain)
  {
    var ts := threads[i := Allocated(addr)];
    assert forall j :: 0 <= j < |ts| ==> Owned(ts[j]) == if j == i then addr else Owned(threads[j]);
    forall a | a in w ensures a in chain || exists j :: 0 <= j < |ts| && Owned(ts[j]) == a {
      if a == addr { assert Owned(ts[i]) == a; }
      if j :| 0 <= j < |threads| && Owned(threads[j]) == a && a != 0 { assert Owned(ts[j]) == a; }
    }
  }

  lemma OwnsFree(mem: map<nat, Node>, w: map<nat, Node>, threads: seq<Local>, chain: seq<nat>, i: nat)
    requires Ownership(mem, threads, chain) && i < |threads| && Owned(threads[i]) != 0
    requires w.Keys == mem.Keys - {Owned(threads[i])}
    ensures Ownership(w, threads[i := Idle], chain)
  {
    var ts := threads[i := Idle];
    assert forall j :: 0 <= j < |ts| ==> Owned(ts[j]) == if j == i then 0 else Owned(threads[j]);
    forall a | a in w ensures a in chain || exists j :: 0 <= j < |ts| && Owned(ts[j]) == a {
      if j :| 0 <= j < |threads| && Owned(threads[j]) == a { assert Owned(ts[j]) == a; }
    }
  }

  lemma OwnsPush(mem: map<nat, Node>, threads: seq<Local>, chain: seq<nat>, i: nat)
    requires Ownership(mem, threads, chain) && i < |threads| && Owned(threads[i]) != 0
    ensures Ownership(mem, threads[i := Idle], [Owned(threads[i])] + chain)
  {
    var ts, ch := threads[i := Idle], [Owned(threads[i])] + chain;
    assert forall j :: 0 <= j < |ts| ==> Owned(ts[j]) == if j == i then 0 else Owned(threads[j]);
    assert forall a :: a in ch <==> a == Owned(threads[i]) || a in chain;
    forall a | a in mem ensures a in ch || exists j :: 0 <= j < |ts| && Owned(ts[j]) == a {
      if j :| 0 <= j < |threads| && Owned(threads[j]) == a { assert j == i || Owned(ts[j]) == a; }
    }
  }

  lemma OwnsPop(mem: map<nat, Node>, threads: seq<Local>, chain: seq<nat>, i: nat, at: nat)
    requires Ownership(mem, threads, chain) && i < |threads| && Owned(threads[i]) == 0
    requires |chain| > 0 && forall a :: a in chain ==> a in mem
    ensures Ownership(mem, threads[i := Taking(chain[0], at)], chain[1..])
  {
    var ts, ch := threads[i := Taking(chain[0], at)], chain[1..];
    assert chain == [chain[0]] + ch && chain[0] in chain && chain[0] !in ch;
    assert Owned(ts[i]) == chain[0] && forall j :: 0 <= j < |ts| && j != i ==> Owned(ts[j]) == Owned(threads[j]);
    hide Owned;
    forall a | a in mem ensures a in ch || exists j :: 0 <= j < |ts| && Owned(ts[j]) == a {
      if a == chain[0] { assert Owned(ts[i]) == a; }
      if j :| 0 <= j < |threads| && Owned(threads[j]) == a && a != 0 { assert Owned(ts[j]) == a; }
    }
  }

  // -------------------------------------------------------------- the two CASes

  /** Versions and locals survive one more published head. */
  lemma Published(tagged: bool, s: State, p: nat, op: Op, chain: seq<nat>)
    requires Versions(tagged, s)
    requires p == 0 <==> Contents(s.log + [op]) == []
    ensures Versions(tagged, Publish(s, Bump(tagged, s.head, p), op, chain))
  {
    var t := Publish(s, Bump(tagged, s.head, p), op, chain);
    forall k | 0 <= k < |t.hist| ensures t.hist[k].ptr == 0 <==> Contents(t.log[..k]) == [] {
      if k < |s.hist| {
        assert t.hist[k] == s.hist[k] && t.log[..k] == s.log[..k];
      } else {
        assert t.log[..k] == s.log + [op];
      }
    }
  }

  lemma OthersAfterPublish(s: State, t: State, o: Local)
    requires Sound(s, o) && |s.hist| == |s.log| + 1
    requires t.mem == s.mem && |t.hist| == |s.hist| + 1 && |t.log| == |s.log| + 1
    requires t.hist[..|s.hist|] == s.hist && t.log[..|s.log|] == s.log
    ensures Sound(t, o)
  {
    assert forall k :: 0 <= k < |s.hist| ==> t.hist[k] == t.hist[..|s.hist|][k];
    assert forall k :: 0 <= k < |s.log| ==> t.log[k] == t.log[..|s.log|][k];
  }

  lemma SoundAfterPublish(s: State, t: State, i: nat, h: Head, op: Op, chain: seq<nat>, l: Local)
    requires AllSound(s) && |s.hist| == |s.log| + 1 && i < |s.threads|
    requires t == At(Sees(Publish(s, h, op, chain), i, |s.hist|), i, l).(births := t.births) && Sound(t, l)
    ensures AllSound(t)
  {
    forall j | 0 <= j < |t.threads| ensures Sound(t, t.threads[j]) {
      if j != i { OthersAfterPublish(s, t, s.threads[j]); }
    }
  }

  lemma LogPush(log: seq<Op>, v: Value)
    ensures Contents(log + [Pushed(v)]) == [v] + Contents(log)
    ensures Legal(log) ==> Legal(log + [Pushed(v)])
  {
    assert (log + [Pushed(v)])[..|log|] == log;
  }

  lemma LogPop(log: seq<Op>)
    requires |Contents(log)| > 0
    ensures Contents(log + [Popped(Contents(log)[0])]) == Contents(log)[1..]
    ensures Legal(log) ==> Legal(log + [Popped(Contents(log)[0])])
  {
    assert (log + [Popped(Contents(log)[0])])[..|log|] == log;
  }

  lemma LinkedPush(mem: map<nat, Node>, p: nat, chain: seq<nat>, node: nat)
    requires Linked(mem, p, chain) && node != 0 && node in mem && mem[node].next == p
    ensures Linked(mem, node, [node] + chain)
    ensures Data(mem, [node] + chain) == [mem[node].data] + Data(mem, chain)
  {
    assert ([node] + chain)[1..] == chain;
  }

  lemma CasPushRepresents(tagged: bool, s: State, i: nat)
    requires Inv(tagged, s) && i < |s.threads| && Enabled(s, i, CasPush)
    ensures var t := Step(tagged, s, i, CasPush); Represents(t) && Legal(t.log)
  {
    var l := s.threads[i];
    assert Sound(s, l);
    LogPush(s.log, DataAt(s.mem, l.node));
    LinkedPush(s.mem, s.head.ptr, s.chain, l.node);
    hide Linked, Data, Contents, Legal, Enabled, Ownership, Versions, AllSound;
  }

  lemma CasPushOwners(tagged: bool, s: State, i: nat)
    requires Ownership(s.mem, s.threads, s.chain) && i < |s.threads| && Enabled(s, i, CasPush) && Owned(s.threads[i]) != 0
    ensures var t := Step(tagged, s, i, CasPush); Ownership(t.mem, t.threads, t.chain)
  {
    hide Ownership, Contents;
    OwnsPush(s.mem, s.threads, s.chain, i);
  }

  lemma CasPushVersions(tagged: bool, s: State, i: nat)
    requires Versions(tagged, s) && i < |s.threads| && Enabled(s, i, CasPush) && Owned(s.threads[i]) != 0
    ensures Versions(tagged, Step(tagged, s, i, CasPush))
  {
    var l := s.threads[i];
    var op := Pushed(DataAt(s.mem, l.node));
    LogPush(s.log, op.v);
    hide Contents;
    Published(tagged, s, l.node, op, [l.node] + s.chain);
  }

  lemma CasPushSound(tagged: bool, s: State, i: nat)
    requires AllSound(s) && |s.hist| == |s.log| + 1 && i < |s.threads| && Enabled(s, i, CasPush)
    ensures AllSound(Step(tagged, s, i, CasPush))
  {
    hide AllSound, Contents;
    var t := Step(tagged, s, i, CasPush);
    SoundAfterPublish(s, t, i, t.head, Pushed(DataAt(s.mem, s.threads[i].node)), t.chain, Idle);
  }

  lemma PushOwns(tagged: bool, s: State, i: nat)
    requires Inv(tagged, s) && i < |s.threads| && Enabled(s, i, CasPush)
    ensures Owned(s.threads[i]) != 0 && |s.hist| == |s.log| + 1
  {
    assert Sound(s, s.threads[i]);
  }

  /** A push linearises at its exchange. */
  lemma CasPushKeeps(tagged: bool, s: State, i: nat)
    requires Inv(tagged, s) && i < |s.threads| && Enabled(s, i, CasPush)
    ensures Inv(tagged, Step(tagged, s, i, CasPush))
  {
    hide Represents, Ownership, Versions, Legal, AllSound, Enabled, Step, Owned;
    PushOwns(tagged, s, i);
    CasPushRepresents(tagged, s, i);
    CasPushOwners(tagged, s, i);
    CasPushVersions(tagged, s, i);
    CasPushSound(tagged, s, i);
  }

  /** A pop linearises at its exchange, provided the next pointer it read is still
    * its head's next. */
  lemma CasPopKeeps(tagged: bool, s: State, i: nat)
    requires Inv(tagged, s) && i < |s.threads| && Enabled(s, i, CasPop) && FreshPop(s, i)
    ensures Inv(tagged, Step(tagged, s, i, CasPop))
  {
    var l := s.threads[i];
    var t := Step(tagged, s, i, CasPop);
    assert Sound(s, l);
    LinkedLive(s.mem, s.head.ptr, s.chain);
    LogPop(s.log);
    var op := Popped(DataAt(s.mem, s.head.ptr));
    assert op.v == Contents(s.log)[0];
    assert Represents(t);
    assert (l.next == 0) == (s.chain[1..] == []) == (Contents(t.log) == []) by {
      LinkedLive(s.mem, l.next, s.chain[1..]);
    }
    OwnsPop(s.mem, s.threads, s.chain, i, |s.log|);
    Published(tagged, s, l.next, op, s.chain[1..]);
    SoundAfterPublish(s, t, i, t.head, op, t.chain, Taking(l.seen.ptr, |s.log|));
  }

  /** With tags, an exchange succeeds only on an unchanged head, so the next
    * pointer read before it is never stale. */
  lemma TagsKeepPopsFresh(s: State, i: nat)
    requires Inv(true, s) && i < |s.threads|
    ensures FreshPop(s, i)
  {
    assert Sound(s, s.threads[i]);
  }

  // --------------------------------------------------------------- every step

  /** A read of the current head's next pointer returns what memory holds. */
  predicate ReadsNext(s: State, i: nat, a: Action)
    requires i < |s.threads|
  {
    var l := s.threads[i];
    a.ReadNext? && l.Popping? && l.ver == |s.log| && l.seen.ptr in s.mem ==> a.next == s.mem[l.seen.ptr].next
  }

  lemma StepKeeps(tagged: bool, s: State, i: nat, a: Action)
    requires Inv(tagged, s) && i < |s.threads| && Enabled(s, i, a) && ReadsNext(s, i, a)
    requires a.CasPop? ==> FreshPop(s, i)
    ensures Inv(tagged, Step(tagged, s, i, a))
  {
    if a.CasPush? {
      CasPushKeeps(tagged, s, i);
    } else if a.CasPop? {
      CasPopKeeps(tagged, s, i);
    } else if a.New? || a.Delete? || a.Link? {
      MemoryStepKeeps(tagged, s, i, a);
    } else {
      LocalStepKeeps(tagged, s, i, a);
    }
  }

  lemma MemoryStepKeeps(tagged: bool, s: State, i: nat, a: Action)
    requires Inv(tagged, s) && i < |s.threads| && Enabled(s, i, a)
    requires a.New? || a.Delete? || a.Link?
    ensures Inv(tagged, Step(tagged, s, i, a))
  {
    var l := s.threads[i];
    var t := Step(tagged, s, i, a);
    assert Sound(s, l);
    LinkedLive(s.mem, s.head.ptr, s.chain);
    match a {
      case New(_, addr) => OwnsNew(s.mem, t.mem, s.threads, s.chain, i, addr);
      case Delete => OwnsFree(s.mem, t.mem, s.threads, s.chain, i);
      case Link => OwnsSame(s.mem, t.mem, s.threads, s.chain, i, t.threads[i]);
    }
    QuietStep(tagged, s, t, i, t.threads[i]);
  }

  lemma LocalStepKeeps(tagged: bool, s: State, i: nat, a: Action)
    requires Inv(tagged, s) && i < |s.threads| && Enabled(s, i, a) && ReadsNext(s, i, a)
    requires !a.CasPush? && !a.CasPop? && !a.New? && !a.Delete? && !a.Link?
    ensures Inv(tagged, Step(tagged, s, i, a))
  {
    var t := Step(tagged, s, i, a);
    OnlyLocals(tagged, s, i, a);
    LocalSound(tagged, s, i, a);
    OwnershipOf(tagged, s);
    hide Inv, Step, Enabled, Sound, Ownership, ReadsNext;
    OwnsSame(s.mem, t.mem, s.threads, s.chain, i, t.threads[i]);
    QuietStep(tagged, s, t, i, t.threads[i]);
  }

  lemma OwnershipOf(tagged: bool, s: State)
    requires Inv(tagged, s)
    ensures Ownership(s.mem, s.threads, s.chain)
  {
  }

  lemma OnlyLocals(tagged: bool, s: State, i: nat, a: Action)
    requires i < |s.threads| && Enabled(s, i, a)
    requires !a.CasPush? && !a.CasPop? && !a.New? && !a.Delete? && !a.Link?
    ensures var t := Step(tagged, s, i, a);
      && i < |t.threads| && t == s.(threads := s.threads[i := t.threads[i]], known := t.known, acquired := t.acquired)
      && Owned(t.threads[i]) == Owned(s.threads[i])
  {
    hide Contents;
  }

  lemma LocalSound(tagged: bool, s: State, i: nat, a: Action)
    requires Inv(tagged, s) && i < |s.threads| && Enabled(s, i, a) && ReadsNext(s, i, a)
    requires !a.CasPush? && !a.CasPop? && !a.New? && !a.Delete? && !a.Link?
    ensures var t := Step(tagged, s, i, a); i < |t.threads| && Sound(t, t.threads[i])
  {
    SoundAt(tagged, s, i);
    ReadAtHead(tagged, s, i);
    hide Contents, Inv;
    LocalSoundBy(tagged, s, i, a);
  }

  lemma LocalSoundBy(tagged: bool, s: State, i: nat, a: Action)
    requires i < |s.threads| && Sound(s, s.threads[i]) && Enabled(s, i, a) && ReadsNext(s, i, a) && FollowsLive(s, s.threads[i])
    requires !a.CasPush? && !a.CasPop? && !a.New? && !a.Delete? && !a.Link?
    ensures var t := Step(tagged, s, i, a); i < |t.threads| && Sound(t, t.threads[i])
  {
    hide Contents;
  }

  /** A pop at the current version follows a live head. */
  predicate FollowsLive(s: State, l: Local) {
    l.Popping? && l.ver == |s.log| && l.seen.ptr != 0 ==> l.seen.ptr in s.mem
  }

  lemma ReadAtHead(tagged: bool, s: State, i: nat)
    requires Inv(tagged, s) && i < |s.threads|
    ensures FollowsLive(s, s.threads[i])
  {
    assert Sound(s, s.threads[i]);
  }

  lemma InitInv(tagged: bool, n: nat, ordered: bool)
    ensures Inv(tagged, Init(n, ordered)) && Orders(tagged, Init(n, ordered))
  {
  }

  // --------------------------------------------------------- what is ordered

  /** The push of a node is no later than version v. */
  predicate BornBy(s: State, node: nat, v: nat) {
    node in s.births && s.births[node].ver <= v && s.births[node].who < |s.threads|
  }

  /** A thread that follows the head is ordered after the version it follows. */
  ghost predicate Timely(tagged: bool, s: State, i: nat)
    requires i < |s.threads| == |s.acquired|
  {
    match s.threads[i]
    case Popping(_, ver) => s.ordered ==> ver <= s.acquired[i]
    case PopCas(_, ver, _) => s.ordered ==> ver <= s.acquired[i]
    case Taking(node, at) => BornBy(s, node, at) && (tagged && s.ordered ==> at <= s.acquired[i])
    case _ => true
  }

  ghost predicate Orders(tagged: bool, s: State) {
    && |s.acquired| == |s.threads|
    && (forall a :: a in s.chain ==> BornBy(s, a, |s.log|))
    && forall i :: 0 <= i < |s.threads| ==> Timely(tagged, s, i)
  }

  /** Nobody can miss another thread's writes. */
  predicate InSync(s: State) {
    s.ordered || |s.threads| <= 1
  }

  lemma ReadsAreCurrent(tagged: bool, s: State, i: nat, a: Action)
    requires Inv(tagged, s) && Orders(tagged, s) && InSync(s) && i < |s.threads| && Enabled(s, i, a)
    ensures ReadsNext(s, i, a)
  {
    var l := s.threads[i];
    assert Sound(s, l) && Timely(tagged, s, i);
    if a.ReadNext? && l.ver == |s.log| {
      assert |s.chain| > 0 && l.seen.ptr == s.chain[0];
    }
  }

  /** With tags, what a pop takes off is what its node holds. */
  lemma TakesAreCurrent(s: State, i: nat, a: Action)
    requires Inv(true, s) && Orders(true, s) && InSync(s) && i < |s.threads| && Enabled(s, i, a)
    ensures TakesData(s, i, a)
  {
    assert Sound(s, s.threads[i]) && Timely(true, s, i);
  }

  /** What a step does to the births, to the chain and to what others have acquired. */
  lemma OrderMoves(tagged: bool, s: State, i: nat, a: Action)
    requires i < |s.threads| == |s.acquired| && Enabled(s, i, a)
    ensures var t, node := Step(tagged, s, i, a), Owned(s.threads[i]);
      && t.ordered == s.ordered && |t.threads| == |s.threads| == |t.acquired| && |s.log| <= |t.log|
      && (a.CasPush? ==> |t.log| == |s.log| + 1 && t.births == s.births[node := Birth(i, |s.hist|)] && t.chain == [node] + s.chain)
      && (a.Delete? ==> t.births == s.births - {node} && t.chain == s.chain)
      && (a.CasPop? ==> t.births == s.births && (|s.chain| > 0 ==> t.chain == s.chain[1..]))
      && (!a.CasPush? && !a.Delete? && !a.CasPop? ==> t.births == s.births && t.chain == s.chain)
      && forall j :: 0 <= j < |s.threads| && j != i ==> t.threads[j] == s.threads[j] && t.acquired[j] == s.acquired[j]
  {
    hide Contents;
  }

  lemma OthersTimely(tagged: bool, s: State, i: nat, a: Action, j: nat)
    requires Orders(tagged, s) && i < |s.threads| && Enabled(s, i, a) && j < |s.threads| && j != i
    requires Owned(s.threads[j]) != 0 ==> Owned(s.threads[j]) != Owned(s.threads[i])
    requires s.threads[j].Taking? ==> Owned(s.threads[j]) != 0
    ensures var t := Step(tagged, s, i, a); |t.acquired| == |t.threads| == |s.threads| && Timely(tagged, t, j)
  {
    OrderMoves(tagged, s, i, a);
    assert Timely(tagged, s, j);
    hide Step, Enabled;
  }

  lemma OwnTimely(tagged: bool, s: State, i: nat, a: Action)
    requires Inv(tagged, s) && Orders(tagged, s) && i < |s.threads| && Enabled(s, i, a)
    ensures var t := Step(tagged, s, i, a); |t.acquired| == |t.threads| == |s.threads| && Timely(tagged, t, i)
  {
    assert Timely(tagged, s, i);
    OrderMoves(tagged, s, i, a);
    hide Inv, Orders, Timely, Step, Enabled;
    if a.CasPop? {
      CasPopTimely(tagged, s, i);
    } else if a.LoadForPop? || a.CasPopFails? || a.ReadNext? {
      ReadTimely(tagged, s, i, a);
    } else {
      RestTimely(tagged, s, i, a);
    }
  }

  lemma ReadTimely(tagged: bool, s: State, i: nat, a: Action)
    requires i < |s.threads| == |s.acquired| && Timely(tagged, s, i) && Enabled(s, i, a)
    requires a.LoadForPop? || a.CasPopFails? || a.ReadNext?
    ensures var t := Step(tagged, s, i, a); |t.acquired| == |t.threads| == |s.threads| && Timely(tagged, t, i)
  {
    hide BornBy, Visible, DataAt;
  }

  lemma RestTimely(tagged: bool, s: State, i: nat, a: Action)
    requires i < |s.threads| == |s.acquired| && Enabled(s, i, a)
    requires !a.CasPop? && !a.LoadForPop? && !a.CasPopFails? && !a.ReadNext?
    ensures var t := Step(tagged, s, i, a); |t.acquired| == |t.threads| == |s.threads| && Timely(tagged, t, i)
  {
    hide BornBy, Visible, DataAt;
  }

  lemma CasPopTimely(tagged: bool, s: State, i: nat)
    requires Inv(tagged, s) && Orders(tagged, s) && i < |s.threads| && Enabled(s, i, CasPop)
    ensures var t := Step(tagged, s, i, CasPop);
      |t.acquired| == |t.threads| == |s.threads| && Timely(tagged, t, i)
  {
    HeadOfChain(tagged, s, i);
    assert Timely(tagged, s, i);
    hide Contents, Inv;
  }

  lemma HeadOfChain(tagged: bool, s: State, i: nat)
    requires Inv(tagged, s) && i < |s.threads| && Enabled(s, i, CasPop)
    ensures |s.chain| > 0 && s.head.ptr == s.chain[0] && s.head.ptr in s.chain
    ensures tagged ==> s.threads[i].ver == |s.log|
  {
    assert Sound(s, s.threads[i]);
  }

  lemma ChainBorn(tagged: bool, s: State, i: nat, a: Action)
    requires Inv(tagged, s) && Orders(tagged, s) && i < |s.threads| && Enabled(s, i, a)
    ensures var t := Step(tagged, s, i, a); forall x :: x in t.chain ==> BornBy(t, x, |t.log|)
  {
    OrderMoves(tagged, s, i, a);
    OwnedApart(tagged, s, i);
    if a.CasPop? { HeadOfChain(tagged, s, i); }
    var t := Step(tagged, s, i, a);
    hide Step, Enabled, Inv, Timely, Owned;
    forall x | x in t.chain ensures BornBy(t, x, |t.log|) {
      assert x in s.chain ==> BornBy(s, x, |s.log|);
    }
  }

  lemma OwnedApart(tagged: bool, s: State, i: nat)
    requires Inv(tagged, s) && i < |s.threads|
    ensures Owned(s.threads[i]) !in s.chain && |s.hist| == |s.log| + 1
    ensures s.threads[i].Taking? ==> Owned(s.threads[i]) != 0
    ensures forall j :: 0 <= j < |s.threads| && j != i && Owned(s.threads[j]) != 0 ==> Owned(s.threads[j]) != Owned(s.threads[i])
  {
    assert Sound(s, s.threads[i]);
    LinkedLive(s.mem, s.head.ptr, s.chain);
  }

  lemma OrdersKept(tagged: bool, s: State, i: nat, a: Action)
    requires Inv(tagged, s) && Orders(tagged, s) && i < |s.threads| && Enabled(s, i, a)
    ensures Orders(tagged, Step(tagged, s, i, a))
    ensures Step(tagged, s, i, a).ordered == s.ordered && |Step(tagged, s, i, a).threads| == |s.threads|
  {
    OwnTimely(tagged, s, i, a);
    ChainBorn(tagged, s, i, a);
    OrderMoves(tagged, s, i, a);
    var t := Step(tagged, s, i, a);
    OwnedApart(tagged, s, i);
    forall j | 0 <= j < |s.threads| ensures Timely(tagged, t, j) {
      if j != i {
        OwnedApart(tagged, s, j);
        OthersTimely(tagged, s, i, a, j);
      }
    }
    hide Inv, Step, Enabled, Timely, BornBy;
  }

  // --------------------------------------------------------------- whole runs

  /** Every pop exchange in the run still sees its head's next pointer. */
  predicate PopsFresh(tagged: bool, s: State, r: Run)
    requires CanRun(tagged, s, r)
    decreases |r|
  {
    |r| == 0 ||
    ((r[0].1.CasPop? ==> FreshPop(s, r[0].0)) && PopsFresh(tagged, Step(tagged, s, r[0].0, r[0].1), r[1..]))
  }

  /** At every moment of the run the heap holds the sequential stack. */
  ghost predicate StaysAStack(tagged: bool, s: State, r: Run)
    requires CanRun(tagged, s, r)
    decreases |r|
  {
    Represents(s) && (|r| == 0 || StaysAStack(tagged, Step(tagged, s, r[0].0, r[0].1), r[1..]))
  }

  /** A pop exchange that installs anything else breaks the list on the spot. */
  lemma StalePopBreaks(tagged: bool, s: State, i: nat)
    requires Inv(tagged, s) && i < |s.threads| && Enabled(s, i, CasPop) && !FreshPop(s, i)
    ensures !Represents(Step(tagged, s, i, CasPop))
  {
    assert Sound(s, s.threads[i]);
    assert |s.chain| > 0 && Linked(s.mem, s.mem[s.head.ptr].next, s.chain[1..]);
    var t := Step(tagged, s, i, CasPop);
    assert t.chain == s.chain[1..] && t.mem == s.mem;
  }

  /** Exactly the stale pops break the stack, in either variant: a run keeps the
    * list at every step if and only if each pop's next pointer was still current. */
  lemma {:induction false} StackIffPopsFresh(tagged: bool, s: State, r: Run)
    requires Inv(tagged, s) && Orders(tagged, s) && InSync(s) && CanRun(tagged, s, r)
    ensures StaysAStack(tagged, s, r) <==> PopsFresh(tagged, s, r)
    ensures PopsFresh(tagged, s, r) ==> Inv(tagged, Exec(tagged, s, r))
    decreases |r|
  {
    if |r| > 0 {
      hide Inv, Orders, Represents, Enabled, Step, FreshPop, ReadsNext;
      InvRepresents(tagged, s);
      var (i, a) := r[0];
      if a.CasPop? && !FreshPop(s, i) {
        StalePopBreaks(tagged, s, i);
      } else {
        ReadsAreCurrent(tagged, s, i, a);
        StepKeeps(tagged, s, i, a);
        OrdersKept(tagged, s, i, a);
        StackIffPopsFresh(tagged, Step(tagged, s, i, a), r[1..]);
      }
    } else {
      InvRepresents(tagged, s);
    }
  }

  lemma InvRepresents(tagged: bool, s: State)
    requires Inv(tagged, s)
    ensures Represents(s)
  {
  }

  /** With tags every pop is fresh, so every run keeps the invariant. */
  lemma {:induction false} TaggedRunKeeps(s: State, r: Run)
    requires Inv(true, s) && Orders(true, s) && InSync(s) && CanRun(true, s, r)
    ensures Inv(true, Exec(true, s, r)) && Orders(true, Exec(true, s, r)) && StaysAStack(true, s, r)
    decreases |r|
  {
    hide Inv, Orders, Represents, Enabled, Step, FreshPop, ReadsNext;
    InvRepresents(true, s);
    if |r| > 0 {
      var (i, a) := r[0];
      TagsKeepPopsFresh(s, i);
      ReadsAreCurrent(true, s, i, a);
      StepKeeps(true, s, i, a);
      OrdersKept(true, s, i, a);
      TaggedRunKeeps(Step(true, s, i, a), r[1..]);
    }
  }

  // ------------------------------------------------- values passed and returned

  /** The log index of the pop a thread has made and not yet returned from. */
  function PopAt(l: Local): int {
    match l
    case Taking(_, at) => at
    case Deleting(_, _, at) => at
    case _ => -1
  }

  /** The value a push call is still to publish. */
  function ToPush(mem: map<nat, Node>): Local -> multiset<Value> {
    (l: Local) => if l.Allocated? || l.Linking? || l.PushCas? then multiset{DataAt(mem, l.node)} else multiset{}
  }

  /** The value a pop call has taken off and is still to return. */
  function ToReturn(mem: map<nat, Node>): Local -> multiset<Value> {
    (l: Local) =>
      if l.Taking? then multiset{DataAt(mem, l.node)} else if l.Deleting? then multiset{l.val} else multiset{}
  }

  function ResultValue(x: Result): multiset<Value> {
    multiset{x.val}
  }

  /** Each exchange of a pop belongs to one call, which returns what it took. */
  ghost predicate Claims(s: State) {
    && (forall i, j :: 0 <= i < j < |s.threads| && PopAt(s.threads[i]) >= 0 ==> PopAt(s.threads[i]) != PopAt(s.threads[j]))
    && (forall a, b :: 0 <= a < b < |s.results| ==> s.results[a].at != s.results[b].at)
    && (forall i, a :: 0 <= i < |s.threads| && 0 <= a < |s.results| ==> PopAt(s.threads[i]) != s.results[a].at)
    && (forall a :: 0 <= a < |s.results| ==>
          s.results[a].at < |s.log| && s.log[s.results[a].at] == Popped(s.results[a].val))
  }

  /** Nothing passed to push is lost, and nothing is returned that was not pushed. */
  ghost predicate Balance(s: State) {
    && multiset(s.asked) == PushedBag(s.log) + Gather(s.threads, ToPush(s.mem))
    && PoppedBag(s.log) == Gather(s.results, ResultValue) + Gather(s.threads, ToReturn(s.mem))
  }

  /** Threads never look behind what they know. */
  ghost predicate Knows(s: State) {
    && |s.known| == |s.threads|
    && forall i :: 0 <= i < |s.threads| ==>
        s.known[i] < |s.hist| && (s.threads[i].Popping? ==> s.threads[i].ver == s.known[i])
  }

  /** A call about to return holds the value its exchange took off. */
  ghost predicate Holding(s: State) {
    forall i :: 0 <= i < |s.threads| && s.threads[i].Deleting? ==>
      s.threads[i].at < |s.log| && s.log[s.threads[i].at] == Popped(s.threads[i].val)
  }

  ghost predicate Books(s: State) {
    Claims(s) && Balance(s) && Knows(s) && Holding(s)
  }

  lemma InitBooks(n: nat, ordered: bool)
    ensures Books(Init(n, ordered))
  {
    var s := Init(n, ordered);
    hide Gather;
    GatherNone(s.threads, ToPush(s.mem));
    GatherNone(s.threads, ToReturn(s.mem));
    GatherNone(s.results, ResultValue);
  }

  predicate Carries(l: Local) {
    l.Allocated? || l.Linking? || l.PushCas? || l.Taking? || l.Deleting?
  }

  lemma SoundAt(tagged: bool, s: State, i: nat)
    requires Inv(tagged, s) && i < |s.threads|
    ensures Sound(s, s.threads[i]) && |s.hist| == |s.log| + 1
    ensures PopAt(s.threads[i]) < |s.log|
    ensures Owned(s.threads[i]) != 0 ==> Owned(s.threads[i]) in s.mem
    ensures s.threads[i].Taking? ==> s.threads[i].node in s.mem
    ensures s.threads[i].Taking? ==> s.threads[i].at < |s.log| && s.log[s.threads[i].at] == Popped(DataAt(s.mem, s.threads[i].node))
    ensures Owned(s.threads[i]) == 0 ==> !Carries(s.threads[i])
  {
    assert Sound(s, s.threads[i]);
  }

  /** A thread's claim is kept, dropped with its result recorded, or made anew on
    * the entry just logged. */
  lemma ClaimMoves(tagged: bool, s: State, i: nat, a: Action)
    requires i < |s.threads| && Enabled(s, i, a)
    ensures var t, l := Step(tagged, s, i, a), s.threads[i];
      && t.threads == s.threads[i := t.threads[i]] && |t.threads| == |s.threads| && s.log <= t.log
      && (a.Delete? ==> t.results == s.results + [Result(l.at, l.val)] && PopAt(l) == l.at && PopAt(t.threads[i]) == -1)
      && (!a.Delete? ==> t.results == s.results)
      && (!a.Delete? && !a.CasPop? ==> PopAt(t.threads[i]) == PopAt(l))
      && (a.CasPop? ==> PopAt(t.threads[i]) == |s.log|)
  {
    hide Contents;
  }

  /** Thread i drops or keeps its claim, or claims a new entry. */
  lemma ClaimsFrame(s: State, t: State, i: nat, at: int)
    requires Claims(s) && i < |s.threads| && |t.threads| == |s.threads| && s.log <= t.log && t.results == s.results
    requires t.threads == s.threads[i := t.threads[i]] && PopAt(t.threads[i]) == at
    requires at == PopAt(s.threads[i]) || (at == |s.log| && forall j :: 0 <= j < |s.threads| ==> PopAt(s.threads[j]) < |s.log|)
    ensures Claims(t)
  {
    hide PopAt;
    assert forall j :: 0 <= j < |s.threads| && j != i ==> t.threads[j] == s.threads[j];
  }

  /** A call that returns hands its claim over to its result. */
  lemma ClaimReturned(s: State, t: State, i: nat, x: Result)
    requires Claims(s) && i < |s.threads| && |t.threads| == |s.threads| && t.log == s.log
    requires t.threads == s.threads[i := t.threads[i]] && PopAt(t.threads[i]) == -1 && PopAt(s.threads[i]) == x.at
    requires t.results == s.results + [x] && x.at < |s.log| && s.log[x.at] == Popped(x.val)
    ensures Claims(t)
  {
    hide PopAt;
    assert forall j :: 0 <= j < |s.threads| && j != i ==> t.threads[j] == s.threads[j];
  }

  lemma ClaimsKept(tagged: bool, s: State, i: nat, a: Action)
    requires Inv(tagged, s) && Claims(s) && Holding(s) && i < |s.threads| && Enabled(s, i, a)
    ensures Claims(Step(tagged, s, i, a))
  {
    ClaimMoves(tagged, s, i, a);
    forall j | 0 <= j < |s.threads| ensures PopAt(s.threads[j]) < |s.log| { SoundAt(tagged, s, j); }
    SoundAt(tagged, s, i);
    var l, t := s.threads[i], Step(tagged, s, i, a);
    assert a.Delete? ==> l.Deleting? && t.log == s.log;
    hide Inv, Step, Enabled, PopAt, Sound, Owned, Carries, Claims;
    if a.Delete? {
      ClaimReturned(s, t, i, Result(l.at, l.val));
    } else {
      ClaimsFrame(s, t, i, PopAt(t.threads[i]));
    }
  }

  /** The read of the data returns what the node holds. */
  predicate TakesData(s: State, i: nat, a: Action)
    requires i < |s.threads|
  {
    a.Take? && s.threads[i].Taking? ==> a.v == DataAt(s.mem, s.threads[i].node)
  }

  lemma HoldingKept(tagged: bool, s: State, i: nat, a: Action)
    requires Inv(tagged, s) && Holding(s) && i < |s.threads| && Enabled(s, i, a) && TakesData(s, i, a)
    ensures Holding(Step(tagged, s, i, a))
  {
    SoundAt(tagged, s, i);
    OneThreadMoves(tagged, s, i, a);
    LogGrows(tagged, s, i, a);
    ReturnsTaken(tagged, s, i, a);
    hide Step, Enabled, Contents, Inv, Sound, Owned, PopAt, Carries, TakesData;
    var t := Step(tagged, s, i, a);
    assert forall j :: 0 <= j < |s.threads| && j != i ==> t.threads[j] == s.threads[j];
  }

  /** A thread gets to its delete by taking the data of its node. */
  lemma ReturnsTaken(tagged: bool, s: State, i: nat, a: Action)
    requires i < |s.threads| && Enabled(s, i, a) && TakesData(s, i, a)
    ensures var t, l := Step(tagged, s, i, a), s.threads[i];
      i < |t.threads| && (t.threads[i].Deleting? ==> l.Taking? && t.threads[i] == Deleting(l.node, DataAt(s.mem, l.node), l.at))
  {
    hide Contents;
  }

  lemma LogGrows(tagged: bool, s: State, i: nat, a: Action)
    requires i < |s.threads| && Enabled(s, i, a)
    ensures s.log <= Step(tagged, s, i, a).log
  {
    hide Contents;
  }

  lemma KnowsKept(tagged: bool, s: State, i: nat, a: Action)
    requires Knows(s) && i < |s.threads| && Enabled(s, i, a)
    ensures Knows(Step(tagged, s, i, a))
  {
    hide Contents;
  }

  lemma BagPush(log: seq<Op>, v: Value)
    ensures PushedBag(log + [Pushed(v)]) == PushedBag(log) + multiset{v}
    ensures PoppedBag(log + [Pushed(v)]) == PoppedBag(log)
  {
    assert (log + [Pushed(v)])[..|log|] == log;
  }

  lemma BagPop(log: seq<Op>, v: Value)
    ensures PoppedBag(log + [Popped(v)]) == PoppedBag(log) + multiset{v}
    ensures PushedBag(log + [Popped(v)]) == PushedBag(log)
  {
    assert (log + [Popped(v)])[..|log|] == log;
  }

  /** A step changes no live node but the one its thread owns. */
  lemma OthersNodes(tagged: bool, s: State, i: nat, a: Action, node: nat)
    requires i < |s.threads| && Enabled(s, i, a) && node in s.mem && node != Owned(s.threads[i])
    ensures DataAt(Step(tagged, s, i, a).mem, node) == DataAt(s.mem, node)
  {
    hide Contents;
  }

  lemma OtherCarries(tagged: bool, s: State, i: nat, a: Action, j: nat)
    requires Inv(tagged, s) && i < |s.threads| && Enabled(s, i, a) && j < |s.threads| && j != i
    ensures var m := Step(tagged, s, i, a).mem;
      && ToPush(s.mem)(s.threads[j]) == ToPush(m)(s.threads[j])
      && ToReturn(s.mem)(s.threads[j]) == ToReturn(m)(s.threads[j])
  {
    hide Inv, Step, Enabled, Owned, DataAt, Sound, Carries, ToPush, ToReturn;
    SoundAt(tagged, s, j);
    OwnersDiffer(tagged, s, i, j);
    if Owned(s.threads[j]) != 0 { OthersNodes(tagged, s, i, a, Owned(s.threads[j])); }
    CarriesByNode(s.mem, Step(tagged, s, i, a).mem, s.threads[j]);
  }

  /** What a call carries depends only on the data of the node it owns. */
  lemma CarriesByNode(m: map<nat, Node>, w: map<nat, Node>, l: Local)
    requires Owned(l) == 0 ==> !Carries(l)
    requires Owned(l) != 0 ==> DataAt(m, Owned(l)) == DataAt(w, Owned(l))
    ensures ToPush(m)(l) == ToPush(w)(l) && ToReturn(m)(l) == ToReturn(w)(l)
  {
    hide DataAt;
  }

  lemma OwnersDiffer(tagged: bool, s: State, i: nat, j: nat)
    requires Inv(tagged, s) && i < |s.threads| && j < |s.threads| && j != i
    ensures Owned(s.threads[j]) != 0 ==> Owned(s.threads[j]) != Owned(s.threads[i])
  {
  }

  /** What the other threads are still to push and to return, whatever thread i does. */
  lemma OthersCarry(tagged: bool, s: State, i: nat, a: Action) returns (push: multiset<Value>, back: multiset<Value>)
    requires Inv(tagged, s) && i < |s.threads| && Enabled(s, i, a)
    ensures var t := Step(tagged, s, i, a);
      && i < |t.threads|
      && Gather(s.threads, ToPush(s.mem)) == push + ToPush(s.mem)(s.threads[i])
      && Gather(t.threads, ToPush(t.mem)) == push + ToPush(t.mem)(t.threads[i])
      && Gather(s.threads, ToReturn(s.mem)) == back + ToReturn(s.mem)(s.threads[i])
      && Gather(t.threads, ToReturn(t.mem)) == back + ToReturn(t.mem)(t.threads[i])
  {
    var t := Step(tagged, s, i, a);
    OneThreadMoves(tagged, s, i, a);
    hide Inv, Step, Enabled, ToPush, ToReturn;
    forall j | 0 <= j < |s.threads| && j != i
      ensures ToPush(s.mem)(s.threads[j]) == ToPush(t.mem)(s.threads[j])
      ensures ToReturn(s.mem)(s.threads[j]) == ToReturn(t.mem)(s.threads[j])
    {
      OtherCarries(tagged, s, i, a, j);
    }
    push := GatherChange(s.threads, ToPush(s.mem), ToPush(t.mem), i, t.threads[i]);
    back := GatherChange(s.threads, ToReturn(s.mem), ToReturn(t.mem), i, t.threads[i]);
  }

  lemma OneThreadMoves(tagged: bool, s: State, i: nat, a: Action)
    requires i < |s.threads| && Enabled(s, i, a)
    ensures var t := Step(tagged, s, i, a); |t.threads| == |s.threads| && t.threads == s.threads[i := t.threads[i]]
  {
    hide Contents;
  }

  lemma NewColumn(tagged: bool, s: State, i: nat, a: Action)
    requires i < |s.threads| && Enabled(s, i, a) && a.New?
    ensures var t := Step(tagged, s, i, a);
      && i < |t.threads| && t.log == s.log && t.asked == s.asked + [a.v]
      && ToPush(s.mem)(s.threads[i]) == multiset{} && ToPush(t.mem)(t.threads[i]) == multiset{a.v}
  {
    hide Contents;
  }

  lemma CasPushColumn(tagged: bool, s: State, i: nat)
    requires i < |s.threads| && Enabled(s, i, CasPush)
    ensures var t, v := Step(tagged, s, i, CasPush), DataAt(s.mem, Owned(s.threads[i]));
      && i < |t.threads| && t.log == s.log + [Pushed(v)] && t.asked == s.asked && t.results == s.results
      && ToPush(s.mem)(s.threads[i]) == multiset{v} && ToPush(t.mem)(t.threads[i]) == multiset{}
      && ToReturn(s.mem)(s.threads[i]) == multiset{} && ToReturn(t.mem)(t.threads[i]) == multiset{}
  {
    hide Contents;
  }

  lemma CasPopColumn(tagged: bool, s: State, i: nat)
    requires i < |s.threads| && Enabled(s, i, CasPop)
    ensures var t, v := Step(tagged, s, i, CasPop), DataAt(s.mem, s.head.ptr);
      && i < |t.threads| && t.log == s.log + [Popped(v)] && t.asked == s.asked && t.results == s.results
      && ToPush(s.mem)(s.threads[i]) == multiset{} && ToPush(t.mem)(t.threads[i]) == multiset{}
      && ToReturn(s.mem)(s.threads[i]) == multiset{} && ToReturn(t.mem)(t.threads[i]) == multiset{v}
  {
    hide Contents;
  }

  lemma DeleteColumn(tagged: bool, s: State, i: nat)
    requires i < |s.threads| && Enabled(s, i, Delete)
    ensures var t, l := Step(tagged, s, i, Delete), s.threads[i];
      && i < |t.threads| && t.log == s.log && t.results == s.results + [Result(l.at, l.val)]
      && ToReturn(s.mem)(l) == multiset{l.val} && ToReturn(t.mem)(t.threads[i]) == multiset{}
  {
    hide Contents;
  }

  predicate Pushes(l: Local) {
    l.Allocated? || l.Linking? || l.PushCas?
  }

  lemma PushSpot(tagged: bool, s: State, i: nat, a: Action)
    requires i < |s.threads| && Enabled(s, i, a) && !a.New? && !a.CasPush? && !a.CasPop?
    ensures var t, l := Step(tagged, s, i, a), s.threads[i];
      && i < |t.threads| && t.asked == s.asked && t.log == s.log
      && (Pushes(t.threads[i]) <==> Pushes(l)) && (Pushes(l) ==> Owned(t.threads[i]) == Owned(l))
  {
    hide Contents;
  }

  lemma PushData(tagged: bool, s: State, i: nat, a: Action)
    requires i < |s.threads| && Enabled(s, i, a) && !a.New? && !a.CasPush? && !a.CasPop? && Pushes(s.threads[i])
    ensures var node := Owned(s.threads[i]); DataAt(Step(tagged, s, i, a).mem, node) == DataAt(s.mem, node)
  {
    hide Contents;
  }

  lemma PushValue(mem: map<nat, Node>, l: Local)
    ensures ToPush(mem)(l) == if Pushes(l) then multiset{DataAt(mem, Owned(l))} else multiset{}
  {
    hide DataAt;
  }

  /** Every other step moves no value. */
  lemma PushUnchanged(tagged: bool, s: State, i: nat, a: Action)
    requires i < |s.threads| && Enabled(s, i, a) && !a.New? && !a.CasPush? && !a.CasPop?
    ensures var t := Step(tagged, s, i, a);
      && i < |t.threads| && t.asked == s.asked && t.log == s.log
      && ToPush(s.mem)(s.threads[i]) == ToPush(t.mem)(t.threads[i])
  {
    hide *;
    PushSpot(tagged, s, i, a);
    if Pushes(s.threads[i]) { PushData(tagged, s, i, a); }
    PushValue(s.mem, s.threads[i]);
    PushValue(Step(tagged, s, i, a).mem, Step(tagged, s, i, a).threads[i]);
  }

  lemma ReturnUnchanged(tagged: bool, s: State, i: nat, a: Action)
    requires i < |s.threads| && Enabled(s, i, a) && !a.CasPop? && !a.CasPush? && !a.Delete?
    requires TakesData(s, i, a)
    ensures var t := Step(tagged, s, i, a);
      && i < |t.threads| && t.results == s.results && t.log == s.log
      && ToReturn(s.mem)(s.threads[i]) == ToReturn(t.mem)(t.threads[i])
  {
    hide Contents;
  }

  /** A value passed to push waits in its call until the exchange logs it. */
  lemma PushColumn(tagged: bool, s: State, i: nat, a: Action)
    requires i < |s.threads| && Enabled(s, i, a)
    ensures var t, l := Step(tagged, s, i, a), s.threads[i];
      && i < |t.threads|
      && multiset(t.asked) + ToPush(s.mem)(l) + PushedBag(s.log)
           == multiset(s.asked) + ToPush(t.mem)(t.threads[i]) + PushedBag(t.log)
  {
    hide *;
    if a.New? {
      NewColumn(tagged, s, i, a);
      assert multiset(s.asked + [a.v]) == multiset(s.asked) + multiset{a.v};
    } else if a.CasPush? {
      CasPushColumn(tagged, s, i);
      BagPush(s.log, DataAt(s.mem, Owned(s.threads[i])));
    } else if a.CasPop? {
      CasPopColumn(tagged, s, i);
      BagPop(s.log, DataAt(s.mem, s.head.ptr));
    } else {
      PushUnchanged(tagged, s, i, a);
    }
  }

  /** A value taken off by an exchange stays with its call until the call returns it. */
  lemma ReturnColumn(tagged: bool, s: State, i: nat, a: Action)
    requires i < |s.threads| && Enabled(s, i, a)
    requires TakesData(s, i, a)
    ensures var t, l := Step(tagged, s, i, a), s.threads[i];
      && i < |t.threads|
      && PoppedBag(t.log) + ToReturn(s.mem)(l) + Gather(s.results, ResultValue)
           == PoppedBag(s.log) + ToReturn(t.mem)(t.threads[i]) + Gather(t.results, ResultValue)
  {
    DeletingNow(s, i, a);
    hide *;
    if a.CasPush? {
      CasPushColumn(tagged, s, i);
      BagPush(s.log, DataAt(s.mem, Owned(s.threads[i])));
    } else if a.CasPop? {
      CasPopColumn(tagged, s, i);
      BagPop(s.log, DataAt(s.mem, s.head.ptr));
    } else if a.Delete? {
      var x := Result(s.threads[i].at, s.threads[i].val);
      DeleteColumn(tagged, s, i);
      GatherAppend(s.results, x, ResultValue);
      ValueOf(x);
    } else {
      ReturnUnchanged(tagged, s, i, a);
    }
  }

  lemma DeletingNow(s: State, i: nat, a: Action)
    requires i < |s.threads| && Enabled(s, i, a)
    ensures a.Delete? ==> s.threads[i].Deleting?
  {
  }

  lemma ValueOf(x: Result)
    ensures ResultValue(x) == multiset{x.val}
  {
  }

  lemma BalanceKept(tagged: bool, s: State, i: nat, a: Action)
    requires Inv(tagged, s) && Balance(s) && i < |s.threads| && Enabled(s, i, a) && TakesData(s, i, a)
    ensures Balance(Step(tagged, s, i, a))
  {
    hide Inv, Step, Enabled, Gather, PushedBag, PoppedBag, ToPush, ToReturn;
    var push, back := OthersCarry(tagged, s, i, a);
    SoundAt(tagged, s, i);
    PushColumn(tagged, s, i, a);
    ReturnColumn(tagged, s, i, a);
    var t := Step(tagged, s, i, a);
    AddBoth(multiset(s.asked), PushedBag(s.log), push, ToPush(s.mem)(s.threads[i]),
            multiset(t.asked), PushedBag(t.log), ToPush(t.mem)(t.threads[i]));
    AddBoth(PoppedBag(s.log), Gather(s.results, ResultValue), back, ToReturn(s.mem)(s.threads[i]),
            PoppedBag(t.log), Gather(t.results, ResultValue), ToReturn(t.mem)(t.threads[i]));
  }

  /** Adding the same bag on both sides. */
  lemma AddBoth(all: multiset<Value>, out: multiset<Value>, rest: multiset<Value>, own: multiset<Value>,
                all': multiset<Value>, out': multiset<Value>, own': multiset<Value>)
    requires all == out + (rest + own) && all' + own + out == all + own' + out'
    ensures all' == out' + (rest + own')
  {
    forall v: Value ensures all'[v] == (out' + (rest + own'))[v] {
      assert all[v] == out[v] + rest[v] + own[v];
      assert (all' + own + out)[v] == (all + own' + out')[v];
    }
  }

  lemma BooksKept(tagged: bool, s: State, i: nat, a: Action)
    requires Inv(tagged, s) && Books(s) && i < |s.threads| && Enabled(s, i, a) && TakesData(s, i, a)
    ensures Books(Step(tagged, s, i, a))
  {
    ClaimsKept(tagged, s, i, a);
    BalanceKept(tagged, s, i, a);
    KnowsKept(tagged, s, i, a);
    HoldingKept(tagged, s, i, a);
    hide Claims, Balance, Knows, Holding, Step, Enabled, Inv, TakesData;
  }

  /** The value a step passes to push. */
  function Argument(a: Action): seq<Value> {
    match a
    case New(v, _) => [v]
    case _ => []
  }

  /** The values passed to push in a run, in order. */
  function PushArguments(r: Run): seq<Value> {
    if |r| == 0 then [] else Argument(r[0].1) + PushArguments(r[1..])
  }

  lemma AskedByStep(tagged: bool, s: State, i: nat, a: Action)
    requires i < |s.threads| && Enabled(s, i, a)
    ensures Step(tagged, s, i, a).asked == s.asked + Argument(a)
    ensures |Step(tagged, s, i, a).threads| == |s.threads|
  {
    hide Contents;
  }

  lemma NoArguments()
    ensures PushArguments([]) == []
  {
  }

  lemma AskedFirst(asked: seq<Value>, r: Run)
    requires |r| > 0
    ensures (asked + Argument(r[0].1)) + PushArguments(r[1..]) == asked + PushArguments(r)
  {
    hide Argument;
  }

  lemma {:induction false} TaggedRunBooks(s: State, r: Run)
    requires Inv(true, s) && Orders(true, s) && InSync(s) && Books(s) && CanRun(true, s, r)
    ensures Books(Exec(true, s, r))
    ensures Exec(true, s, r).asked == s.asked + PushArguments(r)
    decreases |r|
  {
    hide Inv, Orders, Books, Enabled, Step, FreshPop, PushArguments, Argument, ReadsNext, TakesData;
    NoArguments();
    if |r| > 0 {
      var (i, a) := r[0];
      TagsKeepPopsFresh(s, i);
      ReadsAreCurrent(true, s, i, a);
      TakesAreCurrent(s, i, a);
      OrdersKept(true, s, i, a);
      StepKeeps(true, s, i, a);
      BooksKept(true, s, i, a);
      AskedByStep(true, s, i, a);
      AskedFirst(s.asked, r);
      TaggedRunBooks(Step(true, s, i, a), r[1..]);
    }
  }

  lemma ContentsInMemory(tagged: bool, s: State)
    requires Inv(tagged, s)
    ensures Data(s.mem, s.chain) == Contents(s.log) && Legal(s.log)
    ensures tagged ==> forall j, k :: 0 <= j < k < |s.hist| ==> s.hist[j] != s.hist[k]
  {
  }

  /** The tagged stack, from empty, for any number of threads and any interleaving,
    * as long as failed exchanges are ordered or there is but one thread: exactly the
    * conditions under which the stack is safe, see SafeIff.
    * The exchanges, each logged with the data of the node it exchanged, form a
    * legal sequential history whose contents the heap holds. The values passed to
    * push are, as a bag, those that pops have returned, those taken off and not yet
    * returned, those on the heap's list, and those not yet published. Every pop
    * returns the value of an exchange of its own, and no (pointer, tag) pair recurs. */
  lemma TaggedStackIsLinearisable(n: nat, ordered: bool, r: Run)
    requires (ordered || n <= 1) && CanRun(true, Init(n, ordered), r)
    ensures var t := Exec(true, Init(n, ordered), r);
      && Legal(t.log) && Represents(t) && Claims(t)
      && multiset(PushArguments(r)) == Gather(t.results, ResultValue) + Gather(t.threads, ToReturn(t.mem))
           + multiset(Data(t.mem, t.chain)) + Gather(t.threads, ToPush(t.mem))
      && (forall j, k :: 0 <= j < k < |t.hist| ==> t.hist[j] != t.hist[k])
  {
    InitInv(true, n, ordered);
    InitBooks(n, ordered);
    hide Inv, Orders, Claims, Contents, Legal, Data, PushedBag, PoppedBag, Gather, Represents, CanRun, Exec;
    TaggedRunKeeps(Init(n, ordered), r);
    TaggedRunBooks(Init(n, ordered), r);
    var t := Exec(true, Init(n, ordered), r);
    InvRepresents(true, t);
    ContentsInMemory(true, t);
    Conservation(t.log);
    assert t.asked == PushArguments(r);
  }

  /** With every call returned: pushed is popped plus what the stack still holds. */
  lemma QuietStackBalances(n: nat, ordered: bool, r: Run)
    requires (ordered || n <= 1) && CanRun(true, Init(n, ordered), r)
    requires forall i :: 0 <= i < |Exec(true, Init(n, ordered), r).threads| ==>
      Exec(true, Init(n, ordered), r).threads[i].Idle?
    ensures var t := Exec(true, Init(n, ordered), r);
      multiset(PushArguments(r)) == Gather(t.results, ResultValue) + multiset(Data(t.mem, t.chain))
  {
    var t := Exec(true, Init(n, ordered), r);
    GatherNone(t.threads, ToReturn(t.mem));
    GatherNone(t.threads, ToPush(t.mem));
    hide Exec, CanRun, Legal, Represents, Claims, Gather, Data, PushArguments;
    TaggedStackIsLinearisable(n, ordered, r);
  }

  /** What calls return: a pop returns the value its exchange removed, an exchange no
    * other call has made. */
  lemma PopsReturnTheirOwn(tagged: bool, s: State, i: nat)
    requires Inv(tagged, s) && Books(s) && i < |s.threads| && Enabled(s, i, Delete)
    ensures var l := s.threads[i];
      && l.at < |s.log| && s.log[l.at] == Popped(l.val)
      && (forall j :: 0 <= j < |s.threads| && j != i ==> PopAt(s.threads[j]) != l.at)
      && (forall b :: 0 <= b < |s.results| ==> s.results[b].at != l.at)
  {
    hide Inv, Balance, Knows, Sound, Owned, Carries;
    SoundAt(tagged, s, i);
    assert s.threads[i].Deleting? && PopAt(s.threads[i]) == s.threads[i].at;
    hide PopAt, Enabled;
    forall b | 0 <= b < |s.results| ensures s.results[b].at != s.threads[i].at {
      assert PopAt(s.threads[i]) != s.results[b].at;
    }
  }

  /** A pop that reports an empty stack has seen an empty version of the head, no
    * older than anything this thread has seen or published before. */
  lemma EmptyPopsSawEmpty(tagged: bool, s: State, i: nat)
    requires Inv(tagged, s) && Books(s) && i < |s.threads| && Enabled(s, i, ReturnEmpty)
    ensures var l := s.threads[i];
      i < |s.known| && s.known[i] == l.ver <= |s.log| && Contents(s.log[..l.ver]) == []
  {
    PoppingSeen(tagged, s, i);
    hide *;
    PoppingKnown(s, i);
  }

  lemma PoppingSeen(tagged: bool, s: State, i: nat)
    requires Inv(tagged, s) && i < |s.threads| && Enabled(s, i, ReturnEmpty)
    ensures s.threads[i].Popping? && s.threads[i].ver <= |s.log| && Contents(s.log[..s.threads[i].ver]) == []
  {
    assert Sound(s, s.threads[i]);
    hide Contents, Represents, Ownership, Legal;
  }

  lemma PoppingKnown(s: State, i: nat)
    requires Books(s) && i < |s.threads| && s.threads[i].Popping?
    ensures i < |s.known| && s.known[i] == s.threads[i].ver
  {
    hide Claims, Balance;
  }

  /** Only the read of `next` can touch a freed node; every other access, and the
    * delete itself, is to a live node that this thread alone owns. */
  lemma AccessesAreLive(tagged: bool, s: State, i: nat, a: Action)
    requires Inv(tagged, s) && i < |s.threads| && Enabled(s, i, a)
    requires a.Link? || a.CasPush? || a.Take? || a.Delete?
    ensures var node := Owned(s.threads[i]);
      && node in s.mem && node !in s.chain
      && forall j :: 0 <= j < |s.threads| && j != i ==> Owned(s.threads[j]) != node
  {
    assert Sound(s, s.threads[i]);
  }

  /** When every call has returned, exactly the nodes of the stack are allocated. */
  lemma NoLeak(tagged: bool, s: State)
    requires Inv(tagged, s) && forall i :: 0 <= i < |s.threads| ==> s.threads[i].Idle?
    ensures forall a :: a in s.mem <==> a in s.chain
    ensures |s.chain| == |Contents(s.log)|
  {
    LinkedLive(s.mem, s.head.ptr, s.chain);
  }

  // ------------------------------------------------------- a thread on its own

  predicate NewCall(a: Action) {
    a.New? || a.LoadForPop?
  }

  /** A step of a thread that runs alone: its loads return the newest head, and its
    * exchange fails only if the head is not the one it saw. */
  predicate Solo(s: State, i: nat, a: Action)
    requires i < |s.threads|
  {
    match a
    case LoadForPush(k) => k + 1 == |s.hist|
    case LoadForPop(k) => k + 1 == |s.hist|
    case CasPushFails(k) => k + 1 == |s.hist| && s.threads[i].PushCas? && s.head != s.threads[i].seen
    case CasPopFails(k) => k + 1 == |s.hist| && s.threads[i].PopCas? && s.head != s.threads[i].seen
    case _ => true
  }

  /** The rest of a call of thread i while all others stand still. */
  predicate SoloRun(tagged: bool, s: State, i: nat, r: Run)
    requires CanRun(tagged, s, r)
    decreases |r|
  {
    |r| == 0 ||
    (r[0].0 == i && Solo(s, i, r[0].1) && !NewCall(r[0].1) && SoloRun(tagged, Step(tagged, s, i, r[0].1), i, r[1..]))
  }

  /** The newest version is the head, and nobody has seen a newer one. */
  ghost predicate Newest(s: State) {
    |s.hist| > 0 && s.head == s.hist[|s.hist| - 1] && Knows(s)
  }

  lemma InitNewest(n: nat, ordered: bool)
    ensures Newest(Init(n, ordered))
  {
  }

  lemma {:induction false} RunNewest(tagged: bool, s: State, r: Run)
    requires Newest(s) && CanRun(tagged, s, r)
    ensures Newest(Exec(tagged, s, r))
    decreases |r|
  {
    hide Newest, Enabled, Step;
    if |r| > 0 {
      NewestKept(tagged, s, r[0].0, r[0].1);
      RunNewest(tagged, Step(tagged, s, r[0].0, r[0].1), r[1..]);
    }
  }

  /** That is so in every reachable state. */
  lemma NewestAlways(tagged: bool, n: nat, ordered: bool, r: Run)
    requires CanRun(tagged, Init(n, ordered), r)
    ensures Newest(Exec(tagged, Init(n, ordered), r))
  {
    hide *;
    InitNewest(n, ordered);
    RunNewest(tagged, Init(n, ordered), r);
  }

  lemma NewestKept(tagged: bool, s: State, i: nat, a: Action)
    requires Newest(s) && i < |s.threads| && Enabled(s, i, a)
    ensures Newest(Step(tagged, s, i, a)) && |Step(tagged, s, i, a).threads| == |s.threads|
  {
    KnowsKept(tagged, s, i, a);
    hide Contents, Knows;
  }

  /** The steps left to a call when its thread runs alone. */
  function SoloLeft(s: State, l: Local): nat {
    match l
    case Idle => 0
    case Allocated(_) => 3
    case Linking(_, seen, _) => if seen == s.head then 2 else 4
    case PushCas(_, seen, _) => if seen == s.head then 1 else 3
    case Popping(seen, _) => if seen.ptr == 0 then 1 else if seen == s.head then 4 else 6
    case PopCas(seen, _, _) => if seen == s.head then 3 else 5
    case Taking(_, _) => 2
    case Deleting(_, _, _) => 1
  }

  lemma SoloShrinks(tagged: bool, s: State, i: nat, a: Action)
    requires Newest(s) && i < |s.threads| && Enabled(s, i, a) && Solo(s, i, a) && !NewCall(a)
    ensures var t := Step(tagged, s, i, a); |t.threads| == |s.threads| && SoloLeft(t, t.threads[i]) < SoloLeft(s, s.threads[i])
  {
    hide Contents, Knows;
  }

  /** In either variant and from every reachable state a call can be finished by its own
    * thread alone: there is always a next step, and no more than six of them. Between
    * calls it can begin a pop, or a push as soon as the allocator has an address. */
  lemma {:induction false} SoloFinishes(tagged: bool, s: State, i: nat, r: Run)
    requires Newest(s) && i < |s.threads| && CanRun(tagged, s, r) && SoloRun(tagged, s, i, r)
    ensures var t := Exec(tagged, s, r);
      && Newest(t) && i < |t.threads|
      && |r| + SoloLeft(t, t.threads[i]) <= SoloLeft(s, s.threads[i]) <= 6
      && (!t.threads[i].Idle? ==> exists a :: Enabled(t, i, a) && Solo(t, i, a) && !NewCall(a))
      && (t.threads[i].Idle? ==> Enabled(t, i, LoadForPop(|t.hist| - 1)))
      && (t.threads[i].Idle? ==> forall v, addr: nat :: addr != 0 && addr !in t.mem ==> Enabled(t, i, New(v, addr)))
    decreases |r|
  {
    hide Newest, Enabled, Step, Solo, NewCall;
    NewestSize(s);
    if |r| > 0 {
      SoloShrinks(tagged, s, i, r[0].1);
      NewestKept(tagged, s, i, r[0].1);
      SoloFinishes(tagged, Step(tagged, s, i, r[0].1), i, r[1..]);
    } else if s.threads[i].Idle? {
      SoloBegins(s, i);
    } else {
      SoloGoesOn(s, i);
    }
  }

  lemma NewestSize(s: State)
    requires Newest(s)
    ensures |s.hist| > 0
  {
  }

  lemma SoloBegins(s: State, i: nat)
    requires Newest(s) && i < |s.threads| && s.threads[i].Idle?
    ensures Enabled(s, i, LoadForPop(|s.hist| - 1))
    ensures forall v, addr: nat :: addr != 0 && addr !in s.mem ==> Enabled(s, i, New(v, addr))
  {
  }

  lemma SoloGoesOn(s: State, i: nat)
    requires Newest(s) && i < |s.threads| && !s.threads[i].Idle?
    ensures exists a :: Enabled(s, i, a) && Solo(s, i, a) && !NewCall(a)
  {
    var l, k := s.threads[i], |s.hist| - 1;
    var a := match l
      case Allocated(_) => LoadForPush(k)
      case Linking(_, _, _) => Link
      case PushCas(_, seen, _) => if s.head == seen then CasPush else CasPushFails(k)
      case Popping(seen, _) => if seen.ptr == 0 then ReturnEmpty else ReadNext(if seen.ptr in s.mem then s.mem[seen.ptr].next else 0)
      case PopCas(seen, _, _) => if s.head == seen then CasPop else CasPopFails(k)
      case Taking(node, _) => Take(DataAt(s.mem, node))
      case _ => Delete;
    assert Enabled(s, i, a) && Solo(s, i, a) && !NewCall(a);
  }

  /** How far a pop has come that thread i began in s0 and has carried on alone. */
  ghost predicate PopStage(s0: State, s: State, i: nat)
    requires i < |s.threads|
  {
    var top := DataAt(s0.mem, s0.head.ptr);
    match s.threads[i]
    case Popping(seen, ver) =>
      && seen == s0.head && Untouched(s0, s, i)
    case PopCas(seen, ver, next) =>
      && seen == s0.head && seen.ptr != 0 && seen.ptr in s0.mem && next == s0.mem[seen.ptr].next && Untouched(s0, s, i)
    case Taking(node, at) =>
      && node == s0.head.ptr != 0 && node in s0.mem && at == |s0.log| && s.mem == s0.mem && s.births == s0.births && s.results == s0.results
      && Visible(s, i, node) && s.log == s0.log + [Popped(top)]
    case Deleting(node, val, at) =>
      s0.head.ptr != 0 && at == |s0.log| && val == top && s.results == s0.results && s.log == s0.log + [Popped(top)]
    case Idle =>
      if s0.head.ptr == 0 then s.log == s0.log && s.results == s0.results
      else s.log == s0.log + [Popped(top)] && s.results == s0.results + [Result(|s0.log|, top)]
    case _ => false
  }

  ghost predicate Untouched(s0: State, s: State, i: nat) {
    && s.mem == s0.mem && s.births == s0.births && s.results == s0.results && s.log == s0.log && s.head == s0.head
    && (s0.head.ptr != 0 ==> s0.head.ptr in s0.mem && Visible(s, i, s0.head.ptr))
  }

  lemma PopStageNext(tagged: bool, s0: State, s: State, i: nat, a: Action)
    requires i < |s.threads| && PopStage(s0, s, i) && !s.threads[i].Idle?
    requires Enabled(s, i, a) && Solo(s, i, a) && !NewCall(a)
    ensures i < |Step(tagged, s, i, a).threads| && PopStage(s0, Step(tagged, s, i, a), i)
  {
    hide Contents;
  }

  lemma {:induction false} PopStages(tagged: bool, s0: State, s: State, i: nat, r: Run)
    requires i < |s.threads| && PopStage(s0, s, i)
    requires CanRun(tagged, s, r) && SoloRun(tagged, s, i, r)
    ensures var t := Exec(tagged, s, r); i < |t.threads| && PopStage(s0, t, i)
    decreases |r|
  {
    if |r| > 0 {
      if s.threads[i].Idle? { IdleCalls(s, i, r[0].1); }
      hide PopStage, Enabled, Step, Solo, NewCall;
      PopStageNext(tagged, s0, s, i, r[0].1);
      PopStages(tagged, s0, Step(tagged, s, i, r[0].1), i, r[1..]);
    }
  }

  lemma IdleCalls(s: State, i: nat, a: Action)
    requires i < |s.threads| && s.threads[i].Idle? && Enabled(s, i, a)
    ensures NewCall(a)
  {
  }

  lemma PopBegins(tagged: bool, s: State, i: nat)
    requires Inv(tagged, s) && Orders(tagged, s) && i < |s.threads| && Enabled(s, i, LoadForPop(|s.log|))
    ensures var t := Step(tagged, s, i, LoadForPop(|s.log|)); i < |t.threads| && PopStage(s, t, i)
    ensures s.head.ptr == 0 <==> Contents(s.log) == []
    ensures s.head.ptr != 0 ==> |Contents(s.log)| > 0 && DataAt(s.mem, s.head.ptr) == Contents(s.log)[0]
  {
    LinkedLive(s.mem, s.head.ptr, s.chain);
    if |s.chain| > 0 { assert BornBy(s, s.chain[0], |s.log|); }
  }

  /** A pop that starts with the newest head and runs alone returns the top of the
    * stack and removes it, or false if the stack is empty. */
  lemma SoloPopTakesTop(tagged: bool, s: State, i: nat, r: Run)
    requires Inv(tagged, s) && Orders(tagged, s) && i < |s.threads| && Enabled(s, i, LoadForPop(|s.log|))
    requires var s1 := Step(tagged, s, i, LoadForPop(|s.log|));
      && CanRun(tagged, s1, r) && SoloRun(tagged, s1, i, r)
      && i < |Exec(tagged, s1, r).threads| && Exec(tagged, s1, r).threads[i].Idle?
    ensures var c, t := Contents(s.log), Exec(tagged, Step(tagged, s, i, LoadForPop(|s.log|)), r);
      && (c == [] ==> t.results == s.results && Contents(t.log) == [])
      && (c != [] ==> t.results == s.results + [Result(|s.log|, c[0])] && Contents(t.log) == c[1..])
  {
    var s1 := Step(tagged, s, i, LoadForPop(|s.log|));
    PopBegins(tagged, s, i);
    if Contents(s.log) != [] { LogPop(s.log); }
    hide Inv, Orders, Enabled, Step, Contents, CanRun, Exec, SoloRun;
    PopStages(tagged, s, s1, i, r);
  }

  /** How far a push of v has come that thread i began in s0 and has carried on alone. */
  ghost predicate PushStage(s0: State, s: State, i: nat, v: Value)
    requires i < |s.threads|
  {
    match s.threads[i]
    case Allocated(node) => DataAt(s.mem, node) == v && s.log == s0.log && s.results == s0.results
    case Linking(node, seen, _) => DataAt(s.mem, node) == v && seen == s.head && s.log == s0.log && s.results == s0.results
    case PushCas(node, seen, _) => DataAt(s.mem, node) == v && seen == s.head && s.log == s0.log && s.results == s0.results
    case Idle => s.log == s0.log + [Pushed(v)] && s.results == s0.results
    case _ => false
  }

  lemma PushStageNext(tagged: bool, s0: State, s: State, i: nat, v: Value, a: Action)
    requires Newest(s) && i < |s.threads| && PushStage(s0, s, i, v) && !s.threads[i].Idle?
    requires Enabled(s, i, a) && Solo(s, i, a) && !NewCall(a)
    ensures i < |Step(tagged, s, i, a).threads| && PushStage(s0, Step(tagged, s, i, a), i, v)
  {
    hide Contents, Knows;
  }

  lemma {:induction false} PushStages(tagged: bool, s0: State, s: State, i: nat, v: Value, r: Run)
    requires Newest(s) && i < |s.threads| && PushStage(s0, s, i, v)
    requires CanRun(tagged, s, r) && SoloRun(tagged, s, i, r)
    ensures var t := Exec(tagged, s, r); i < |t.threads| && PushStage(s0, t, i, v)
    decreases |r|
  {
    if |r| > 0 {
      if s.threads[i].Idle? { IdleCalls(s, i, r[0].1); }
      hide PushStage, Enabled, Step, Solo, NewCall, Newest;
      PushStageNext(tagged, s0, s, i, v, r[0].1);
      NewestKept(tagged, s, i, r[0].1);
      PushStages(tagged, s0, Step(tagged, s, i, r[0].1), i, v, r[1..]);
    }
  }

  lemma PushBegins(tagged: bool, s: State, i: nat, v: Value, addr: nat)
    requires i < |s.threads| && Enabled(s, i, New(v, addr))
    ensures var t := Step(tagged, s, i, New(v, addr)); i < |t.threads| && PushStage(s, t, i, v)
  {
  }

  /** A push that runs alone puts its value on top. */
  lemma SoloPushTops(tagged: bool, s: State, i: nat, v: Value, addr: nat, r: Run)
    requires Newest(s) && i < |s.threads| && Enabled(s, i, New(v, addr))
    requires var s1 := Step(tagged, s, i, New(v, addr));
      && CanRun(tagged, s1, r) && SoloRun(tagged, s1, i, r)
      && i < |Exec(tagged, s1, r).threads| && Exec(tagged, s1, r).threads[i].Idle?
    ensures var t := Exec(tagged, Step(tagged, s, i, New(v, addr)), r);
      Contents(t.log) == [v] + Contents(s.log) && t.results == s.results
  {
    PushBegins(tagged, s, i, v, addr);
    NewestKept(tagged, s, i, New(v, addr));
    LogPush(s.log, v);
    hide Enabled, Step, Contents, CanRun, Exec, SoloRun, Newest;
    PushStages(tagged, s, Step(tagged, s, i, New(v, addr)), i, v, r);
  }

  // ------------------------------------------------ the untagged stack breaks

  lemma {:induction false} RunAppend(tagged: bool, s: State, a: Run, b: Run)
    requires CanRun(tagged, s, a) && CanRun(tagged, Exec(tagged, s, a), b)
    ensures CanRun(tagged, s, a + b) && Exec(tagged, s, a + b) == Exec(tagged, Exec(tagged, s, a), b)
    decreases |a|
  {
    if |a| == 0 {
      assert a + b == b;
    } else {
      assert (a + b)[1..] == a[1..] + b;
      RunAppend(tagged, Step(tagged, s, a[0].0, a[0].1), a[1..], b);
    }
  }

  lemma OneStep(tagged: bool, s: State, i: nat, a: Action)
    requires i < |s.threads| && Enabled(s, i, a)
    ensures CanRun(tagged, s, [(i, a)]) && Exec(tagged, s, [(i, a)]) == Step(tagged, s, i, a)
  {
    assert CanRun(tagged, Step(tagged, s, i, a), [(i, a)][1..]);
  }

  /** Extend a run from `s0` by one step. */
  lemma Then(tagged: bool, s0: State, r: Run, i: nat, a: Action) returns (q: Run)
    requires CanRun(tagged, s0, r)
    requires i < |Exec(tagged, s0, r).threads| && Enabled(Exec(tagged, s0, r), i, a)
    ensures CanRun(tagged, s0, q) && Exec(tagged, s0, q) == Step(tagged, Exec(tagged, s0, r), i, a)
  {
    hide *;
    OneStep(tagged, Exec(tagged, s0, r), i, a);
    RunAppend(tagged, s0, r, [(i, a)]);
    q := r + [(i, a)];
  }

  /** A variant, a number of threads and a run from the empty stack. */
  datatype Case = Case(tagged: bool, ordered: bool, n: nat) {
    function Empty(): State {
      Init(n, ordered)
    }
  }

  ghost predicate Leads(c: Case, r: Run, t: State) {
    CanRun(c.tagged, c.Empty(), r) && Exec(c.tagged, c.Empty(), r) == t
  }

  lemma EmptyRun(c: Case)
    ensures Leads(c, [], c.Empty())
  {
  }

  lemma RunFacts(c: Case, r: Run, s: State)
    requires Leads(c, r, s)
    ensures CanRun(c.tagged, c.Empty(), r) && Exec(c.tagged, c.Empty(), r) == s && Knows(s)
  {
    RunKnows(c.tagged, c.Empty(), r);
  }

  lemma {:induction false} RunKnows(tagged: bool, s: State, r: Run)
    requires Knows(s) && CanRun(tagged, s, r)
    ensures Knows(Exec(tagged, s, r))
    decreases |r|
  {
    hide Knows, Enabled, Step;
    if |r| > 0 {
      KnowsKept(tagged, s, r[0].0, r[0].1);
      RunKnows(tagged, Step(tagged, s, r[0].0, r[0].1), r[1..]);
    }
  }

  lemma RunHolds(c: Case, r: Run, s: State)
    requires CanRun(c.tagged, c.Empty(), r) && Exec(c.tagged, c.Empty(), r) == s
    ensures Leads(c, r, s)
  {
  }

  /** A whole push by thread i, undisturbed. */
  lemma PushAlone(c: Case, r: Run, s: State, i: nat, v: Value, addr: nat) returns (q: Run, t: State)
    requires Leads(c, r, s) && i < |s.threads| && s.threads[i].Idle?
    requires addr != 0 && addr !in s.mem && |s.hist| > 0 && s.hist[|s.hist| - 1] == s.head
    ensures Leads(c, q, t)
    ensures t.mem == s.mem[addr := Node(v, s.head.ptr)] && t.head == Bump(c.tagged, s.head, addr) && t.threads == s.threads
    ensures t.hist == s.hist + [t.head] && t.log == s.log + [Pushed(v)] && t.chain == [addr] + s.chain
    ensures t.acquired == s.acquired && t.ordered == s.ordered && t.births == s.births[addr := Birth(i, |s.hist|)]
  {
    hide Exec, CanRun, Contents, Leads;
    RunFacts(c, r, s);
    q := Then(c.tagged, c.Empty(), r, i, New(v, addr));
    q := Then(c.tagged, c.Empty(), q, i, LoadForPush(|s.hist| - 1));
    q := Then(c.tagged, c.Empty(), q, i, Link);
    q := Then(c.tagged, c.Empty(), q, i, CasPush);
    t := Exec(c.tagged, c.Empty(), q);
    assert t.threads == s.threads && t.mem == s.mem[addr := Node(v, s.head.ptr)];
    RunHolds(c, q, t);
  }

  /** The first half of a pop: load the head and read its next pointer. */
  lemma StartPop(c: Case, r: Run, s: State, i: nat) returns (q: Run, t: State)
    requires Leads(c, r, s) && i < |s.threads| && s.threads[i].Idle?
    requires |s.hist| > 0 && s.hist[|s.hist| - 1] == s.head && s.head.ptr != 0 && s.head.ptr in s.mem
    ensures Leads(c, q, t)
    ensures t == At(Acquires(Sees(s, i, |s.hist| - 1), i, |s.hist| - 1), i, PopCas(s.head, |s.hist| - 1, s.mem[s.head.ptr].next))
  {
    hide Exec, CanRun, Contents, Leads;
    RunFacts(c, r, s);
    q := Then(c.tagged, c.Empty(), r, i, LoadForPop(|s.hist| - 1));
    q := Then(c.tagged, c.Empty(), q, i, ReadNext(s.mem[s.head.ptr].next));
    t := Exec(c.tagged, c.Empty(), q);
    RunHolds(c, q, t);
  }

  /** What the three steps that complete a pop do to an unchanged head. */
  function Finished(s: State, i: nat): State
    requires i < |s.threads| && s.threads[i].PopCas? && |s.chain| > 0
  {
    var h, v := Head(s.threads[i].next, 0), DataAt(s.mem, s.head.ptr);
    Sees(s, i, |s.hist|).(mem := s.mem - {s.head.ptr}, births := s.births - {s.head.ptr}, head := h, threads := s.threads[i := Idle], hist := s.hist + [h],
          log := s.log + [Popped(v)], chain := s.chain[1..], results := s.results + [Result(|s.log|, v)])
  }

  lemma FinishSteps(s: State, i: nat, v: Value)
    requires i < |s.threads| && s.threads[i].PopCas? && |s.chain| > 0
    requires s.head == s.threads[i].seen && s.head.ptr in s.mem && v == s.mem[s.head.ptr].data
    ensures Enabled(s, i, CasPop)
    ensures var s1 := Step(false, s, i, CasPop);
      && i < |s1.threads| && Enabled(s1, i, Take(v))
      && var s2 := Step(false, s1, i, Take(v));
      i < |s2.threads| && Enabled(s2, i, Delete) && Step(false, s2, i, Delete) == Finished(s, i)
  {
    hide Contents;
    var s1 := Step(false, s, i, CasPop);
    var s2 := Step(false, s1, i, Take(v));
    assert s1.threads[i] == Taking(s.head.ptr, |s.log|) && s1.mem == s.mem;
    assert s2.threads[i] == Deleting(s.head.ptr, v, |s.log|) && s2.mem == s.mem;
    assert s2.threads[i := Idle] == s.threads[i := Idle];
  }

  /** The second half, on an unchanged head. */
  lemma FinishPop(c: Case, r: Run, s: State, i: nat) returns (q: Run, t: State)
    requires Leads(c, r, s) && !c.tagged && i < |s.threads| && s.threads[i].PopCas?
    requires s.head == s.threads[i].seen && s.head.ptr in s.mem && |s.chain| > 0
    ensures Leads(c, q, t) && t == Finished(s, i)
  {
    hide Exec, CanRun, Step, Enabled, Contents, Leads;
    RunFacts(c, r, s);
    var v := s.mem[s.head.ptr].data;
    FinishSteps(s, i, v);
    q := Then(c.tagged, c.Empty(), r, i, CasPop);
    q := Then(c.tagged, c.Empty(), q, i, Take(v));
    q := Then(c.tagged, c.Empty(), q, i, Delete);
    t := Finished(s, i);
    RunHolds(c, q, t);
  }

  /** Both threads have read head A (address 1) and next B (address 2). */
  lemma BothHaveRead(c: Case) returns (r: Run, s: State)
    requires c.n >= 2 && !c.tagged
    ensures Leads(c, r, s)
    ensures s.mem == map[2 := Node(20, 0), 1 := Node(10, 2)] && s.head == Head(1, 0) && s.chain == [1, 2]
    ensures |s.threads| == c.n && s.threads[0] == s.threads[1] == PopCas(Head(1, 0), 2, 2)
    ensures |s.hist| == 3
  {
    r := [];
    s := c.Empty();
    hide Exec, CanRun, Step, Enabled, Leads, Contents, PopsFresh, StaysAStack, Represents;
    EmptyRun(c);
    r, s := PushAlone(c, r, s, 0, 20, 2);
    r, s := PushAlone(c, r, s, 0, 10, 1);
    r, s := StartPop(c, r, s, 0);
    r, s := StartPop(c, r, s, 1);
  }

  /** Thread 1 pops A, pops B, and pushes 30 at A's old address. */
  lemma SwappedBack(c: Case) returns (r: Run, s: State)
    requires c.n >= 2 && !c.tagged
    ensures Leads(c, r, s)
    ensures s.mem == map[1 := Node(30, 0)] && s.head == Head(1, 0) && s.chain == [1]
    ensures |s.threads| == c.n && s.threads[0] == PopCas(Head(1, 0), 2, 2) && s.threads[1] == Idle
  {
    r, s := BothHaveRead(c);
    hide Exec, CanRun, Step, Enabled, Leads, Contents, PopsFresh, StaysAStack, Represents;
    r, s := FinishPop(c, r, s, 1);
    assert s.mem == map[2 := Node(20, 0)] && s.chain == [2];
    r, s := StartPop(c, r, s, 1);
    r, s := FinishPop(c, r, s, 1);
    assert s.mem == map[] && s.chain == [];
    r, s := PushAlone(c, r, s, 1, 30, 1);
  }

  /** The scenario of aba_problem.cpp: thread 0 reads head A and next B, thread 1
    * pops both and pushes at A's old address, and thread 0's exchange still
    * succeeds. The head then points at the deleted B. */
  lemma UntaggedStackBreaks(c: Case) returns (r: Run, t: State)
    requires c.n >= 2 && !c.tagged
    ensures Leads(c, r, t) && t.head.ptr != 0 && t.head.ptr !in t.mem
    ensures CanRun(c.tagged, c.Empty(), r) && !StaysAStack(c.tagged, c.Empty(), r)
  {
    hide Exec, CanRun, Step, Enabled, Leads, Contents, PopsFresh, StaysAStack, Represents;
    var s;
    r, s := SwappedBack(c);
    r, t := FinishPop(c, r, s, 0);
    DanglingBreaks(t);
    BrokenAtEnd(c, r, t);
  }

  lemma DanglingBreaks(t: State)
    requires t.head.ptr != 0 && t.head.ptr !in t.mem
    ensures !Represents(t)
  {
  }

  lemma BrokenAtEnd(c: Case, r: Run, t: State)
    requires Leads(c, r, t) && !Represents(t)
    ensures CanRun(c.tagged, c.Empty(), r) && !StaysAStack(c.tagged, c.Empty(), r)
  {
    if StaysAStack(c.tagged, c.Empty(), r) { EndRepresents(c.tagged, c.Empty(), r); }
  }

  lemma {:induction false} EndRepresents(tagged: bool, s: State, r: Run)
    requires CanRun(tagged, s, r) && StaysAStack(tagged, s, r)
    ensures Represents(Exec(tagged, s, r))
    decreases |r|
  {
    hide Represents, Step, Enabled;
    if |r| > 0 { EndRepresents(tagged, Step(tagged, s, r[0].0, r[0].1), r[1..]); }
  }

  // ------------------------------------------- tags alone do not order the retry

  /** Thread 0 has read head A and its next pointer when thread 1 pushes B on top. */
  lemma PushedOver(c: Case) returns (r: Run, s: State)
    requires c.n >= 2 && c.tagged && !c.ordered
    ensures Leads(c, r, s) && |s.threads| == |s.acquired| == c.n && !s.ordered
    ensures s.mem == map[1 := Node(10, 0), 2 := Node(20, 1)] && s.chain == [2, 1] && s.head == Head(2, 2)
    ensures s.hist == [Head(0, 0), Head(1, 1), Head(2, 2)] && s.threads[0] == PopCas(Head(1, 1), 1, 0)
    ensures s.acquired[0] == 1 && 2 in s.births && s.births[2] == Birth(1, 2)
  {
    r, s := [], c.Empty();
    hide Exec, CanRun, Step, Enabled, Leads, Contents, PopsFresh, StaysAStack, Represents;
    EmptyRun(c);
    r, s := PushAlone(c, r, s, 1, 10, 1);
    r, s := StartPop(c, r, s, 0);
    r, s := PushAlone(c, r, s, 1, 20, 2);
  }

  /** The exchange of thread 0 fails, and hands it head B without ordering it after
    * B's push. */
  lemma RetryRelaxed(c: Case) returns (r: Run, t: State)
    requires c.n >= 2 && c.tagged && !c.ordered
    ensures Leads(c, r, t) && |t.threads| == c.n && t.threads[0] == Popping(Head(2, 2), 2) && !Visible(t, 0, 2)
    ensures t.mem == map[1 := Node(10, 0), 2 := Node(20, 1)] && t.chain == [2, 1] && t.head == Head(2, 2)
  {
    var s;
    r, s := PushedOver(c);
    hide Exec, CanRun, Leads, Contents, PopsFresh, StaysAStack, Represents;
    RunFacts(c, r, s);
    r := Then(c.tagged, c.Empty(), r, 0, CasPopFails(2));
    t := Exec(c.tagged, c.Empty(), r);
    RunHolds(c, r, t);
  }

  /** Its read of B's next pointer may then return null, as B held before its push
    * linked it, and the exchange succeeds: A is lost. */
  lemma UnorderedStackBreaks(c: Case) returns (r: Run, t: State)
    requires c.n >= 2 && c.tagged && !c.ordered
    ensures Leads(c, r, t) && t.head.ptr == 0 && t.chain == [1]
    ensures CanRun(c.tagged, c.Empty(), r) && !StaysAStack(c.tagged, c.Empty(), r)
  {
    var s;
    r, s := RetryRelaxed(c);
    RunFacts(c, r, s);
    r := ReadNullAndPop(c, r, s);
    t := Exec(c.tagged, c.Empty(), r);
    hide Exec, CanRun, Step, Enabled, Contents, StaysAStack;
    BrokenAtEnd(c, r, t);
  }

  lemma ReadNullAndPop(c: Case, r: Run, s: State) returns (q: Run)
    requires Leads(c, r, s) && |s.threads| > 0 && s.threads[0] == Popping(Head(2, 2), 2) && !Visible(s, 0, 2)
    requires s.chain == [2, 1] && s.head == Head(2, 2)
    ensures CanRun(c.tagged, c.Empty(), q)
    ensures Exec(c.tagged, c.Empty(), q).head.ptr == 0 && Exec(c.tagged, c.Empty(), q).chain == [1]
  {
    hide Exec, CanRun, Leads, Contents, Visible;
    RunFacts(c, r, s);
    q := Then(c.tagged, c.Empty(), r, 0, ReadNext(0));
    q := Then(c.tagged, c.Empty(), q, 0, CasPop);
  }

  // --------------------------------------------------------- when the stack is safe

  /** A thread on its own: what it has read is still so at its exchange. */
  ghost predicate Current(s: State) {
    forall i :: 0 <= i < |s.threads| ==> FreshPop(s, i)
  }

  /** With a single thread nothing happens between reading `next` and the exchange. */
  lemma AloneKeeps(tagged: bool, s: State, i: nat, a: Action)
    requires Inv(tagged, s) && Orders(tagged, s) && |s.threads| == 1 && i == 0 && Enabled(s, i, a) && Current(s)
    ensures Current(Step(tagged, s, i, a)) && |Step(tagged, s, i, a).threads| == 1
  {
    if a.ReadNext? { HeadIsOwn(tagged, s); }
    hide Inv, Orders, Contents;
    assert FreshPop(s, 0);
  }

  lemma HeadIsOwn(tagged: bool, s: State)
    requires Inv(tagged, s) && Orders(tagged, s) && |s.threads| == 1
    ensures s.head.ptr != 0 ==> s.head.ptr in s.mem && Visible(s, 0, s.head.ptr)
  {
    if s.head.ptr != 0 {
      assert |s.chain| > 0 && s.head.ptr == s.chain[0];
      assert BornBy(s, s.chain[0], |s.log|);
    }
  }

  lemma {:induction false} AloneIsFresh(tagged: bool, s: State, r: Run)
    requires Inv(tagged, s) && Orders(tagged, s) && |s.threads| == 1 && Current(s) && CanRun(tagged, s, r)
    ensures PopsFresh(tagged, s, r)
    decreases |r|
  {
    if |r| > 0 {
      var (i, a) := r[0];
      assert i == 0 && FreshPop(s, i);
      hide Inv, Orders, Enabled, Step, FreshPop, Current, ReadsNext;
      ReadsAreCurrent(tagged, s, i, a);
      StepKeeps(tagged, s, i, a);
      OrdersKept(tagged, s, i, a);
      AloneKeeps(tagged, s, i, a);
      AloneIsFresh(tagged, Step(tagged, s, i, a), r[1..]);
    }
  }

  ghost predicate AlwaysAStack(c: Case) {
    forall r: Run :: CanRun(c.tagged, c.Empty(), r) ==> StaysAStack(c.tagged, c.Empty(), r)
  }

  lemma AloneIsSafe(c: Case, r: Run)
    requires c.n <= 1 && CanRun(c.tagged, c.Empty(), r)
    ensures StaysAStack(c.tagged, c.Empty(), r)
  {
    InitInv(c.tagged, c.n, c.ordered);
    if c.n == 1 {
      AloneIsFresh(c.tagged, c.Empty(), r);
    } else {
      assert |r| == 0;
    }
    StackIffPopsFresh(c.tagged, c.Empty(), r);
  }

  lemma TagsAndOrderAreSafe(c: Case, r: Run)
    requires c.tagged && c.ordered && CanRun(c.tagged, c.Empty(), r)
    ensures StaysAStack(c.tagged, c.Empty(), r)
  {
    InitInv(true, c.n, true);
    TaggedRunKeeps(c.Empty(), r);
  }

  /** Every run keeps the list exactly when heads are tagged and failed exchanges are
    * ordered, or at most one thread uses the stack. */
  lemma SafeIff(c: Case)
    ensures AlwaysAStack(c) <==> (c.tagged && c.ordered) || c.n <= 1
  {
    hide CanRun, StaysAStack, Exec, Leads;
    if c.n <= 1 {
      forall r: Run | CanRun(c.tagged, c.Empty(), r) ensures StaysAStack(c.tagged, c.Empty(), r) { AloneIsSafe(c, r); }
    } else if c.tagged && c.ordered {
      forall r: Run | CanRun(c.tagged, c.Empty(), r) ensures StaysAStack(c.tagged, c.Empty(), r) { TagsAndOrderAreSafe(c, r); }
    } else if c.tagged {
      var r, t := UnorderedStackBreaks(c);
    } else {
      var r, t := UntaggedStackBreaks(c);
    }
  }
}

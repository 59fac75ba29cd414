/** The multi-producer single-consumer queue of lockfree_queue.cpp as a transition
  * system: any number of producers, one step per access, addresses reused after
  * delete. A push exchanges the tail first and links the node only afterwards. */
module MpscQueue {
  import opened Histories

  type Value = int

  /** Address 0 is the null pointer. */
  datatype Node = Node(data: Value, next: nat)

  datatype Producer =
    | Idle
    | Allocated(node: nat)
    | Linking(prev: nat, node: nat)

  datatype Consumer =
    | Ready
    | AtHead(h: nat)
    | AtNext(h: nat, next: nat)
    | Copied(h: nat, next: nat, item: Value)
    | Deleting(h: nat)

  /** `chain` is the sentinel followed by the unpopped nodes in tail-exchange
    * order; `pushed` and `popped` record the values exchanged in and taken out, and
    * `authors` which producer pushed each. */
  datatype State = State(mem: map<nat, Node>, head: nat, tail: nat, producers: seq<Producer>, consumer: Consumer,
                         chain: seq<nat>, pushed: seq<Value>, popped: seq<Value>, authors: seq<nat>)

  datatype Action =
    | New(i: nat, v: Value, addr: nat)
    | Exchange(i: nat)
    | Link(i: nat)
    | LoadHead
    | LoadNext
    | ReturnFalse
    | CopyItem
    | StoreHead
    | Delete

  predicate Enabled(s: State, a: Action) {
    match a
    case New(i, _, addr) => i < |s.producers| && s.producers[i].Idle? && addr != 0 && addr !in s.mem
    case Exchange(i) => i < |s.producers| && s.producers[i].Allocated?
    case Link(i) => i < |s.producers| && s.producers[i].Linking?
    case LoadHead => s.consumer.Ready?
    case LoadNext => s.consumer.AtHead?
    case ReturnFalse => s.consumer.AtNext? && s.consumer.next == 0
    case CopyItem => s.consumer.AtNext? && s.consumer.next != 0
    case StoreHead => s.consumer.Copied?
    case Delete => s.consumer.Deleting?
  }

  function Get(m: map<nat, Node>, a: nat): Node {
    if a in m then m[a] else Node(0, 0)
  }

  function Step(s: State, a: Action): State
    requires Enabled(s, a)
  {
    match a
    case New(i, v, addr) => s.(mem := s.mem[addr := Node(v, 0)], producers := s.producers[i := Allocated(addr)])
    case Exchange(i) =>
      var node := s.producers[i].node;
      s.(tail := node, producers := s.producers[i := Linking(s.tail, node)],
         chain := s.chain + [node], pushed := s.pushed + [Get(s.mem, node).data], authors := s.authors + [i])
    case Link(i) =>
      var p := s.producers[i];
      s.(mem := s.mem[p.prev := Get(s.mem, p.prev).(next := p.node)], producers := s.producers[i := Idle])
    case LoadHead => s.(consumer := AtHead(s.head))
    case LoadNext => s.(consumer := AtNext(s.consumer.h, Get(s.mem, s.consumer.h).next))
    case ReturnFalse => s.(consumer := Ready)
    case CopyItem => s.(consumer := Copied(s.consumer.h, s.consumer.next, Get(s.mem, s.consumer.next).data))
    case StoreHead =>
      s.(head := s.consumer.next, consumer := Deleting(s.consumer.h),
         chain := if |s.chain| > 0 then s.chain[1..] else [], popped := s.popped + [s.consumer.item])
    case Delete => s.(mem := s.mem - {s.consumer.h}, consumer := Ready)
  }

  function Init(n: nat, dummy: nat): State
    requires dummy != 0
  {
    State(map[dummy := Node(0, 0)], dummy, dummy, seq(n, _ => Idle), Ready, [dummy], [], [], [])
  }

  type Run = seq<Action>

  predicate CanRun(s: State, r: Run)
    decreases |r|
  {
    |r| == 0 || (Enabled(s, r[0]) && CanRun(Step(s, r[0]), r[1..]))
  }

  function Exec(s: State, r: Run): State
    requires CanRun(s, r)
    decreases |r|
  {
    if |r| == 0 then s else Exec(Step(s, r[0]), r[1..])
  }

  // ---------------------------------------------------------------- invariant

  /** A producer that has exchanged the tail and not yet linked prev to node. */
  ghost predicate Pending(ps: seq<Producer>, prev: nat, node: nat) {
    exists i :: 0 <= i < |ps| && ps[i] == Linking(prev, node)
  }

  /** Each link of the chain is either in place or owed by a half-done push. */
  ghost predicate Links(m: map<nat, Node>, ps: seq<Producer>, chain: seq<nat>) {
    && |chain| > 0
    && (forall j, k :: 0 <= j < k < |chain| ==> chain[j] != chain[k])
    && (forall k :: 0 <= k < |chain| ==> chain[k] != 0 && chain[k] in m)
    && (forall k :: 0 <= k < |chain| - 1 ==> LinkAt(m, ps, chain, k))
    && m[chain[|chain| - 1]].next == 0
  }

  ghost predicate LinkAt(m: map<nat, Node>, ps: seq<Producer>, chain: seq<nat>, k: nat)
    requires k < |chain| - 1 && chain[k] in m
  {
    m[chain[k]].next == chain[k + 1] || (m[chain[k]].next == 0 && Pending(ps, chain[k], chain[k + 1]))
  }

  /** k is where a producer's pending link belongs. */
  ghost predicate Slot(m: map<nat, Node>, chain: seq<nat>, p: Producer, k: nat)
    requires p.Linking?
  {
    k + 1 < |chain| && chain[k] == p.prev && chain[k + 1] == p.node && p.prev in m && m[p.prev].next == 0
  }

  ghost predicate ProducerOk(m: map<nat, Node>, chain: seq<nat>, p: Producer) {
    match p
    case Idle => true
    case Allocated(node) => node != 0 && node in m && node !in chain && m[node].next == 0
    case Linking(_, _) => exists k: nat :: Slot(m, chain, p, k)
  }

  ghost predicate ProducersOk(m: map<nat, Node>, ps: seq<Producer>, chain: seq<nat>) {
    && (forall i :: 0 <= i < |ps| ==> ProducerOk(m, chain, ps[i]))
    && (forall i, j :: 0 <= i < j < |ps| && ps[i].Allocated? && ps[j].Allocated? ==> ps[i].node != ps[j].node)
    && (forall i, j :: 0 <= i < j < |ps| && ps[i].Linking? && ps[j].Linking? ==> ps[i].prev != ps[j].prev)
  }

  ghost predicate ConsumerOk(s: State) {
    && |s.chain| > 0
    && match s.consumer
       case Ready => true
       case AtHead(h) => h == s.chain[0]
       case AtNext(h, next) =>
         h == s.chain[0] && (next != 0 ==> |s.chain| > 1 && next == s.chain[1] && h in s.mem && s.mem[h].next == next)
       case Copied(h, next, item) =>
         && h == s.chain[0] && next != 0 && |s.chain| > 1 && next == s.chain[1]
         && h in s.mem && s.mem[h].next == next && next in s.mem && s.mem[next].data == item
       case Deleting(h) =>
         && h != 0 && h in s.mem && h !in s.chain
         && forall i :: 0 <= i < |s.producers| ==> s.producers[i] != Allocated(h)
  }

  /** Values leave in the order of the tail exchanges. */
  ghost predicate InOrder(m: map<nat, Node>, chain: seq<nat>, pushed: seq<Value>, popped: seq<Value>) {
    && |chain| > 0 && |pushed| == |popped| + |chain| - 1
    && popped == pushed[..|popped|]
    && forall k :: 0 < k < |chain| ==> chain[k] in m && m[chain[k]].data == pushed[|popped| + k - 1]
  }

  /** Nothing is allocated beyond the chain and what some call is about to use. */
  ghost predicate NoStray(s: State) {
    forall a :: a in s.mem ==> Claimed(s, a)
  }

  ghost predicate Claimed(s: State, a: nat) {
    a in s.chain || s.consumer == Deleting(a) || exists i :: 0 <= i < |s.producers| && s.producers[i] == Allocated(a)
  }

  ghost predicate Inv(s: State) {
    && 0 !in s.mem
    && Links(s.mem, s.producers, s.chain) && ProducersOk(s.mem, s.producers, s.chain) && ConsumerOk(s)
    && s.head == s.chain[0] && s.tail == s.chain[|s.chain| - 1]
    && InOrder(s.mem, s.chain, s.pushed, s.popped) && NoStray(s)
  }

  lemma InitInv(n: nat, dummy: nat)
    requires dummy != 0
    ensures Inv(Init(n, dummy))
  {
  }

  // ------------------------------------------------------------------- frames

  /** Every half-done push of ps is still half done in qs. */
  ghost predicate StillPending(ps: seq<Producer>, qs: seq<Producer>) {
    |ps| == |qs| && forall i :: 0 <= i < |ps| && ps[i].Linking? ==> qs[i] == ps[i]
  }

  lemma LinksFrame(m: map<nat, Node>, w: map<nat, Node>, ps: seq<Producer>, qs: seq<Producer>, chain: seq<nat>)
    requires Links(m, ps, chain) && StillPending(ps, qs)
    requires forall a :: a in chain && a in m ==> a in w && w[a] == m[a]
    ensures Links(w, qs, chain)
  {
    forall k | 0 <= k < |chain| - 1 ensures LinkAt(w, qs, chain, k) {
      assert LinkAt(m, ps, chain, k);
      if i :| 0 <= i < |ps| && ps[i] == Linking(chain[k], chain[k + 1]) {
        assert qs[i] == ps[i];
      }
    }
  }

  lemma ProducerFrame(m: map<nat, Node>, w: map<nat, Node>, chain: seq<nat>, p: Producer)
    requires ProducerOk(m, chain, p)
    requires forall a :: a in chain && a in m ==> a in w && w[a] == m[a]
    requires p.Allocated? ==> p.node in m && p.node in w && w[p.node] == m[p.node]
    ensures ProducerOk(w, chain, p)
  {
    if p.Linking? {
      var k: nat :| Slot(m, chain, p, k);
      assert Slot(w, chain, p, k);
    }
  }

  /** One producer moves; every other keeps its state and its nodes. */
  lemma ProducersFrame(m: map<nat, Node>, w: map<nat, Node>, ps: seq<Producer>, chain: seq<nat>, i: nat, p: Producer)
    requires ProducersOk(m, ps, chain) && i < |ps|
    requires forall a :: a in m && a != Fresh(p) ==> a in w && w[a] == m[a]
    requires forall a :: a in chain ==> a in m && a != Fresh(p)
    requires !p.Linking? && ProducerOk(w, chain, p) && (p.Allocated? ==> p.node !in m)
    ensures ProducersOk(w, ps[i := p], chain)
  {
    var qs := ps[i := p];
    forall j | 0 <= j < |qs| ensures ProducerOk(w, chain, qs[j]) {
      if j != i {
        assert ProducerOk(m, chain, ps[j]);
        ProducerFrame(m, w, chain, ps[j]);
      }
    }
    assert forall j :: 0 <= j < |ps| && ps[j].Allocated? ==> ProducerOk(m, chain, ps[j]);
  }

  function Fresh(p: Producer): nat {
    if p.Allocated? then p.node else 0
  }

  // ---------------------------------------------------------- producers' steps

  lemma NewKeeps(s: State, a: Action)
    requires Inv(s) && a.New? && Enabled(s, a)
    ensures Inv(Step(s, a))
  {
    var t := Step(s, a);
    hide Links, ProducersOk, InOrder, ConsumerOk;
    ChainLive(s);
    assert t.producers[a.i] == Allocated(a.addr);
    LinksFrame(s.mem, t.mem, s.producers, t.producers, s.chain);
    ProducersFrame(s.mem, t.mem, s.producers, s.chain, a.i, Allocated(a.addr));
    ConsumerFrame(s, t);
    OrderFrame(s.mem, t.mem, s.chain, s.pushed, s.popped);
    forall x | x in t.mem ensures Claimed(t, x) {
      if x != a.addr {
        assert Claimed(s, x);
        if i :| 0 <= i < |s.producers| && s.producers[i] == Allocated(x) { assert t.producers[i] == Allocated(x); }
      }
    }
  }

  lemma ChainLive(s: State)
    requires Inv(s)
    ensures |s.chain| > 0 && forall a :: a in s.chain ==> a in s.mem && a != 0
    ensures s.consumer.Deleting? ==> s.consumer.h !in s.chain && s.consumer.h in s.mem
    ensures forall i :: 0 <= i < |s.producers| && s.producers[i].Allocated? ==>
      var node := s.producers[i].node; node in s.mem && node !in s.chain && s.consumer != Deleting(node)
  {
    assert forall i :: 0 <= i < |s.producers| ==> ProducerOk(s.mem, s.chain, s.producers[i]);
  }

  lemma ConsumerFrame(s: State, t: State)
    requires ConsumerOk(s) && t.consumer == s.consumer
    requires t.chain == s.chain
    requires forall a :: a in s.chain && a in s.mem ==> a in t.mem && t.mem[a].data == s.mem[a].data
    requires forall a :: a in s.chain && a in s.mem && s.mem[a].next != 0 ==> t.mem[a] == s.mem[a]
    requires s.consumer.Deleting? ==> s.consumer.h in t.mem && Allocated(s.consumer.h) !in t.producers
    ensures ConsumerOk(t)
  {
  }

  lemma OrderFrame(m: map<nat, Node>, w: map<nat, Node>, chain: seq<nat>, pushed: seq<Value>, popped: seq<Value>)
    requires InOrder(m, chain, pushed, popped)
    requires forall a :: a in chain && a in m ==> a in w && w[a].data == m[a].data
    ensures InOrder(w, chain, pushed, popped)
  {
  }

  lemma ExchangeLinks(m: map<nat, Node>, ps: seq<Producer>, chain: seq<nat>, i: nat, tail: nat, node: nat)
    requires Links(m, ps, chain) && tail == chain[|chain| - 1]
    requires i < |ps| && ps[i] == Allocated(node) && ProducerOk(m, chain, ps[i])
    ensures Links(m, ps[i := Linking(tail, node)], chain + [node])
  {
    var qs, c := ps[i := Linking(tail, node)], chain + [node];
    forall k | 0 <= k < |c| - 1 ensures LinkAt(m, qs, c, k) {
      if k < |chain| - 1 {
        assert LinkAt(m, ps, chain, k);
        if j :| 0 <= j < |ps| && ps[j] == Linking(chain[k], chain[k + 1]) { assert qs[j] == ps[j]; }
      } else {
        assert qs[i] == Linking(c[k], c[k + 1]);
      }
    }
  }

  lemma ExchangeProducers(m: map<nat, Node>, ps: seq<Producer>, chain: seq<nat>, i: nat, tail: nat, node: nat)
    requires Links(m, ps, chain) && tail == chain[|chain| - 1] && ProducersOk(m, ps, chain)
    requires i < |ps| && ps[i] == Allocated(node)
    ensures ProducersOk(m, ps[i := Linking(tail, node)], chain + [node])
  {
    var qs, c := ps[i := Linking(tail, node)], chain + [node];
    forall j | 0 <= j < |qs| ensures ProducerOk(m, c, qs[j]) && (j != i && qs[j].Linking? ==> qs[j].prev != tail) {
      if j == i {
        assert Slot(m, c, qs[i], |chain| - 1);
      } else {
        assert ProducerOk(m, chain, ps[j]);
        if ps[j].Linking? {
          var k: nat :| Slot(m, chain, ps[j], k);
          assert Slot(m, c, qs[j], k);
        }
      }
    }
  }

  lemma ExchangeConsumer(s: State, i: nat)
    requires ConsumerOk(s) && Links(s.mem, s.producers, s.chain) && Enabled(s, Exchange(i))
    ensures ConsumerOk(Step(s, Exchange(i)))
  {
  }

  lemma ExchangeOrder(s: State, i: nat)
    requires InOrder(s.mem, s.chain, s.pushed, s.popped) && Enabled(s, Exchange(i)) && s.producers[i].node in s.mem
    ensures var node := s.producers[i].node;
      InOrder(s.mem, s.chain + [node], s.pushed + [s.mem[node].data], s.popped)
  {
  }

  lemma ExchangeStray(s: State, i: nat)
    requires NoStray(s) && Enabled(s, Exchange(i))
    ensures NoStray(Step(s, Exchange(i)))
  {
    var t := Step(s, Exchange(i));
    var node := s.producers[i].node;
    forall x | x in t.mem ensures Claimed(t, x) {
      assert Claimed(s, x);
      if j :| 0 <= j < |s.producers| && s.producers[j] == Allocated(x) { assert x == node || t.producers[j] == Allocated(x); }
    }
  }

  lemma ExchangeKeeps(s: State, a: Action)
    requires Inv(s) && a.Exchange? && Enabled(s, a)
    ensures Inv(Step(s, a))
  {
    var node := s.producers[a.i].node;
    ChainLive(s);
    assert ProducerOk(s.mem, s.chain, s.producers[a.i]);
    ExchangeLinks(s.mem, s.producers, s.chain, a.i, s.tail, node);
    ExchangeProducers(s.mem, s.producers, s.chain, a.i, s.tail, node);
    ExchangeConsumer(s, a.i);
    ExchangeOrder(s, a.i);
    ExchangeStray(s, a.i);
    hide Links, ProducersOk, ProducerOk, ConsumerOk, InOrder, NoStray;
  }

  lemma LinkLinks(m: map<nat, Node>, ps: seq<Producer>, chain: seq<nat>, i: nat, k: nat)
    requires Links(m, ps, chain) && i < |ps| && ps[i].Linking? && Slot(m, chain, ps[i], k)
    ensures var p := ps[i]; Links(m[p.prev := m[p.prev].(next := p.node)], ps[i := Idle], chain)
  {
    var p := ps[i];
    var w, qs := m[p.prev := m[p.prev].(next := p.node)], ps[i := Idle];
    forall j | 0 <= j < |chain| - 1 ensures LinkAt(w, qs, chain, j) {
      if j != k {
        assert LinkAt(m, ps, chain, j);
        if q :| 0 <= q < |ps| && ps[q] == Linking(chain[j], chain[j + 1]) { assert qs[q] == ps[q]; }
      }
    }
  }

  lemma LinkProducers(m: map<nat, Node>, ps: seq<Producer>, chain: seq<nat>, i: nat)
    requires ProducersOk(m, ps, chain) && i < |ps| && ps[i].Linking? && ps[i].prev in m && ps[i].prev in chain
    ensures var p := ps[i]; ProducersOk(m[p.prev := m[p.prev].(next := p.node)], ps[i := Idle], chain)
  {
    var p := ps[i];
    var w, qs := m[p.prev := m[p.prev].(next := p.node)], ps[i := Idle];
    forall j | 0 <= j < |qs| ensures ProducerOk(w, chain, qs[j]) {
      if j != i {
        assert ProducerOk(m, chain, ps[j]);
        if ps[j].Linking? {
          assert ps[j].prev != p.prev;
          var k: nat :| Slot(m, chain, ps[j], k);
          assert Slot(w, chain, qs[j], k);
        }
      }
    }
  }

  lemma LinkKeeps(s: State, a: Action)
    requires Inv(s) && a.Link? && Enabled(s, a)
    ensures Inv(Step(s, a))
  {
    var p := s.producers[a.i];
    ChainLive(s);
    assert ProducerOk(s.mem, s.chain, p);
    var k: nat :| Slot(s.mem, s.chain, p, k);
    LinkLinks(s.mem, s.producers, s.chain, a.i, k);
    LinkProducers(s.mem, s.producers, s.chain, a.i);
    LinkStray(s, a.i);
    LinkRest(s, a.i);
    hide Links, ProducersOk, ProducerOk, InOrder, ConsumerOk, NoStray, Slot;
  }

  lemma LinkRest(s: State, i: nat)
    requires ConsumerOk(s) && InOrder(s.mem, s.chain, s.pushed, s.popped) && Enabled(s, Link(i))
    requires var prev := s.producers[i].prev; prev in s.chain && prev in s.mem && s.mem[prev].next == 0
    ensures ConsumerOk(Step(s, Link(i)))
    ensures InOrder(Step(s, Link(i)).mem, s.chain, s.pushed, s.popped)
  {
    var t := Step(s, Link(i));
    hide InOrder, ConsumerOk;
    OrderFrame(s.mem, t.mem, s.chain, s.pushed, s.popped);
    LinkConsumer(s, i);
  }

  lemma LinkConsumer(s: State, i: nat)
    requires ConsumerOk(s) && Enabled(s, Link(i))
    requires var prev := s.producers[i].prev; prev in s.chain && prev in s.mem && s.mem[prev].next == 0
    ensures ConsumerOk(Step(s, Link(i)))
  {
  }

  lemma LinkStray(s: State, i: nat)
    requires NoStray(s) && Enabled(s, Link(i)) && s.producers[i].prev in s.mem
    ensures NoStray(Step(s, Link(i)))
  {
    var t := Step(s, Link(i));
    forall x | x in t.mem ensures Claimed(t, x) {
      assert Claimed(s, x);
      if j :| 0 <= j < |s.producers| && s.producers[j] == Allocated(x) { assert t.producers[j] == Allocated(x); }
    }
  }

  // ----------------------------------------------------------- consumer's steps

  /** What the consumer reads from its sentinel's link. */
  lemma NextRead(s: State)
    requires Inv(s)
    ensures var x := s.mem[s.chain[0]].next;
      && (x != 0 ==> |s.chain| > 1 && x == s.chain[1])
      && (x == 0 <==> |s.chain| == 1 || Pending(s.producers, s.chain[0], s.chain[1]))
  {
    if |s.chain| > 1 {
      assert LinkAt(s.mem, s.producers, s.chain, 0);
      if Pending(s.producers, s.chain[0], s.chain[1]) {
        var i :| 0 <= i < |s.producers| && s.producers[i] == Linking(s.chain[0], s.chain[1]);
        assert ProducerOk(s.mem, s.chain, s.producers[i]);
      }
    }
  }

  lemma ReadKeeps(s: State, a: Action)
    requires Inv(s) && Enabled(s, a)
    requires a.LoadHead? || a.LoadNext? || a.ReturnFalse? || a.CopyItem?
    ensures Inv(Step(s, a))
  {
    var t := Step(s, a);
    ChainLive(s);
    NextRead(s);
    hide Links, ProducersOk, InOrder;
    assert s.chain[0] in s.chain && (|s.chain| > 1 ==> s.chain[1] in s.chain);
    forall x | x in t.mem ensures Claimed(t, x) {
      assert Claimed(s, x);
    }
  }

  lemma StoreLinks(m: map<nat, Node>, ps: seq<Producer>, chain: seq<nat>)
    requires Links(m, ps, chain) && |chain| > 1
    ensures Links(m, ps, chain[1..]) && chain[0] !in chain[1..]
  {
    forall k | 0 <= k < |chain[1..]| - 1 ensures LinkAt(m, ps, chain[1..], k) {
      assert LinkAt(m, ps, chain, k + 1);
    }
  }

  lemma StoreProducers(m: map<nat, Node>, ps: seq<Producer>, chain: seq<nat>)
    requires ProducersOk(m, ps, chain) && |chain| > 1 && chain[0] in m && m[chain[0]].next != 0
    ensures ProducersOk(m, ps, chain[1..])
  {
    forall i | 0 <= i < |ps| ensures ProducerOk(m, chain[1..], ps[i]) {
      assert ProducerOk(m, chain, ps[i]);
      if ps[i].Linking? {
        var k: nat :| Slot(m, chain, ps[i], k);
        assert Slot(m, chain[1..], ps[i], k - 1);
      }
    }
  }

  lemma StoreKeeps(s: State)
    requires Inv(s) && Enabled(s, StoreHead)
    ensures Inv(Step(s, StoreHead))
  {
    ChainLive(s);
    StoreLinks(s.mem, s.producers, s.chain);
    StoreProducers(s.mem, s.producers, s.chain);
    StoreOrder(s);
    StoreStray(s);
    assert s.chain[0] in s.chain;
    hide Links, ProducersOk, InOrder, NoStray;
  }

  lemma StoreStray(s: State)
    requires NoStray(s) && ConsumerOk(s) && Enabled(s, StoreHead)
    ensures NoStray(Step(s, StoreHead))
  {
    var t := Step(s, StoreHead);
    forall x | x in t.mem ensures Claimed(t, x) {
      assert Claimed(s, x);
      assert s.chain == [s.chain[0]] + s.chain[1..];
    }
  }

  lemma StoreOrder(s: State)
    requires Inv(s) && Enabled(s, StoreHead)
    ensures InOrder(s.mem, s.chain[1..], s.pushed, s.popped + [s.consumer.item])
  {
    assert s.pushed[..|s.popped| + 1] == s.pushed[..|s.popped|] + [s.pushed[|s.popped|]];
  }

  lemma DeleteKeeps(s: State)
    requires Inv(s) && Enabled(s, Delete)
    ensures Inv(Step(s, Delete))
  {
    var t := Step(s, Delete);
    ChainLive(s);
    LinksFrame(s.mem, t.mem, s.producers, t.producers, s.chain);
    OrderFrame(s.mem, t.mem, s.chain, s.pushed, s.popped);
    forall j | 0 <= j < |s.producers| ensures ProducerOk(t.mem, s.chain, s.producers[j]) {
      assert ProducerOk(s.mem, s.chain, s.producers[j]);
      ProducerFrame(s.mem, t.mem, s.chain, s.producers[j]);
    }
    hide Links, InOrder;
    forall x | x in t.mem ensures Claimed(t, x) {
      assert Claimed(s, x);
    }
  }

  lemma StepKeeps(s: State, a: Action)
    requires Inv(s) && Enabled(s, a)
    ensures Inv(Step(s, a))
  {
    hide Inv, Enabled, Step;
    match a {
      case New(_, _, _) => NewKeeps(s, a);
      case Exchange(_) => ExchangeKeeps(s, a);
      case Link(_) => LinkKeeps(s, a);
      case StoreHead => StoreKeeps(s);
      case Delete => DeleteKeeps(s);
      case _ => ReadKeeps(s, a);
    }
  }

  lemma {:induction false} RunKeeps(s: State, r: Run)
    requires Inv(s) && CanRun(s, r)
    ensures Inv(Exec(s, r))
    decreases |r|
  {
    hide Inv, Enabled, Step;
    if |r| > 0 {
      StepKeeps(s, r[0]);
      RunKeeps(Step(s, r[0]), r[1..]);
    }
  }

  // ------------------------------------------------------------ main properties

  /** The values producer i passed to push in a run, in order. */
  function Arguments(r: Run, i: nat): seq<Value> {
    if |r| == 0 then []
    else
      (match r[0] case New(j, v, _) => if j == i then [v] else [] case _ => []) + Arguments(r[1..], i)
  }

  /** The value of a push that has not reached its exchange. */
  function InHand(s: State, i: nat): seq<Value> {
    if i < |s.producers| && s.producers[i].Allocated? then [Get(s.mem, s.producers[i].node).data] else []
  }

  /** What producer i has pushed or holds, in the order of its calls. */
  function Output(s: State, i: nat): seq<Value>
    requires |s.authors| == |s.pushed|
  {
    Of(s.pushed, s.authors, i) + InHand(s, i)
  }

  /** An exchange moves the value from the producer's hand to the log. */
  lemma ExchangeOutput(s: State, a: Action, i: nat)
    requires |s.authors| == |s.pushed| && Enabled(s, a) && a.Exchange?
    ensures var t := Step(s, a); |t.authors| == |t.pushed| && Output(t, i) == Output(s, i)
  {
    hide Of, Get;
    OfAppend(s.pushed, s.authors, Get(s.mem, s.producers[a.i].node).data, a.i, i);
  }

  /** Any other step leaves the log alone, and only New puts a value in hand. */
  lemma HandStep(s: State, a: Action, i: nat)
    requires Inv(s) && Enabled(s, a) && !a.Exchange?
    ensures var t := Step(s, a);
      && t.pushed == s.pushed && t.authors == s.authors
      && InHand(t, i) == InHand(s, i) + match a case New(j, v, _) => if j == i then [v] else [] case _ => []
  {
    ChainLive(s);
    assert a.Link? ==> ProducerOk(s.mem, s.chain, s.producers[a.i]);
    hide Inv;
  }

  lemma OutputStep(s: State, a: Action, i: nat)
    requires Inv(s) && |s.authors| == |s.pushed| && Enabled(s, a)
    ensures var t := Step(s, a);
      && |t.authors| == |t.pushed|
      && Output(t, i) == Output(s, i) + match a case New(j, v, _) => if j == i then [v] else [] case _ => []
  {
    hide Inv, Of, Enabled, Step, InHand;
    if a.Exchange? { ExchangeOutput(s, a, i); } else { HandStep(s, a, i); }
  }

  lemma {:induction false} OutputRun(s: State, r: Run, i: nat)
    requires Inv(s) && |s.authors| == |s.pushed| && CanRun(s, r)
    ensures var t := Exec(s, r); |t.authors| == |t.pushed| && Output(t, i) == Output(s, i) + Arguments(r, i)
    decreases |r|
  {
    hide Inv, Enabled, Step, Output;
    if |r| > 0 {
      OutputStep(s, r[0], i);
      StepKeeps(s, r[0]);
      OutputRun(Step(s, r[0]), r[1..], i);
    }
  }

  /** Following next pointers from p visits exactly `chain` and then ends. */
  ghost predicate Reaches(mem: map<nat, Node>, p: nat, chain: seq<nat>)
    decreases |chain|
  {
    if |chain| == 0 then p == 0
    else p == chain[0] && p in mem && Reaches(mem, mem[p].next, chain[1..])
  }

  lemma {:induction false} SettledReaches(m: map<nat, Node>, ps: seq<Producer>, chain: seq<nat>)
    requires Links(m, ps, chain) && forall i :: 0 <= i < |ps| ==> !ps[i].Linking?
    ensures Reaches(m, chain[0], chain)
    decreases |chain|
  {
    if |chain| > 1 {
      assert LinkAt(m, ps, chain, 0);
      StoreLinks(m, ps, chain);
      SettledReaches(m, ps, chain[1..]);
    } else {
      assert Reaches(m, m[chain[0]].next, chain[1..]);
    }
  }

  /** From the empty queue, in every interleaving: values come out in the order of
    * the tail exchanges, what is not yet out sits in the chain, and once no push is
    * half done the chain is exactly what is reachable from head. What was exchanged
    * in is, for each producer, the values passed to its pushes in its own order. */
  lemma QueueIsFifo(n: nat, dummy: nat, r: Run)
    requires dummy != 0 && CanRun(Init(n, dummy), r)
    ensures var t := Exec(Init(n, dummy), r);
      && t.popped <= t.pushed && |t.chain| == 1 + |t.pushed| - |t.popped|
      && (forall k :: 0 < k < |t.chain| ==> t.chain[k] in t.mem && t.mem[t.chain[k]].data == t.pushed[|t.popped| + k - 1])
      && ((forall i :: 0 <= i < |t.producers| ==> !t.producers[i].Linking?) ==> Reaches(t.mem, t.head, t.chain))
      && |t.authors| == |t.pushed| && (forall i: nat :: Of(t.pushed, t.authors, i) + InHand(t, i) == Arguments(r, i))
  {
    InitInv(n, dummy);
    RunKeeps(Init(n, dummy), r);
    var t := Exec(Init(n, dummy), r);
    OutputRun(Init(n, dummy), r, 0);
    forall i: nat ensures Of(t.pushed, t.authors, i) + InHand(t, i) == Arguments(r, i) {
      OutputRun(Init(n, dummy), r, i);
    }
    if forall i :: 0 <= i < |t.producers| ==> !t.producers[i].Linking? {
      SettledReaches(t.mem, t.producers, t.chain);
    }
  }

  /** The call can return no value: all are popped, or the push of the next is half done. */
  ghost predicate NothingToPop(s: State)
    requires |s.popped| < |s.pushed| ==> |s.chain| > 1
    requires |s.popped| <= |s.pushed|
  {
    |s.popped| == |s.pushed| || Pending(s.producers, s.chain[0], s.chain[1])
  }

  lemma ChainSize(s: State)
    requires Inv(s)
    ensures |s.popped| <= |s.pushed| && |s.chain| == 1 + |s.pushed| - |s.popped| && s.popped == s.pushed[..|s.popped|]
  {
  }

  /** What the load of next finds decides what `try_pop` returns: false if and only if
    * everything pushed is popped or the push of the very next value is half done, and
    * a value otherwise. */
  lemma WhyPopFails(s: State)
    requires Inv(s) && Enabled(s, LoadNext)
    ensures |s.popped| <= |s.pushed| && (|s.popped| < |s.pushed| ==> |s.chain| > 1)
    ensures Enabled(Step(s, LoadNext), ReturnFalse) <==> NothingToPop(s)
    ensures Enabled(Step(s, LoadNext), CopyItem) <==> !NothingToPop(s)
  {
    NextRead(s);
    ChainSize(s);
  }

  // ------------------------------------------------------- calls that run alone

  predicate ByConsumer(a: Action) {
    !a.New? && !a.Exchange? && !a.Link?
  }

  /** No call ever waits for another: one that is under way has exactly one next step. */
  lemma CallsNeverWait(s: State, i: nat)
    ensures exists a :: ByConsumer(a) && Enabled(s, a)
    ensures forall a, b :: ByConsumer(a) && ByConsumer(b) && Enabled(s, a) && Enabled(s, b) ==> a == b
    ensures i < |s.producers| && !s.producers[i].Idle? ==> Enabled(s, Exchange(i)) != Enabled(s, Link(i))
  {
    var a := match s.consumer
      case Ready => LoadHead
      case AtHead(_) => LoadNext
      case AtNext(_, next) => if next == 0 then ReturnFalse else CopyItem
      case Copied(_, _, _) => StoreHead
      case Deleting(_) => Delete;
    assert Enabled(s, a);
  }

  lemma ConsRun(s: State, a: Action, r: Run)
    requires Enabled(s, a) && CanRun(Step(s, a), r)
    ensures CanRun(s, [a] + r) && Exec(s, [a] + r) == Exec(Step(s, a), r)
  {
    assert ([a] + r)[1..] == r;
  }

  lemma NoRun(s: State)
    ensures CanRun(s, []) && Exec(s, []) == s
  {
  }

  /** A whole call of `try_pop` undisturbed: it returns the oldest value, or false and
    * nothing changes. */
  lemma PopAlone(s: State) returns (r: Run)
    requires Inv(s) && s.consumer.Ready?
    ensures CanRun(s, r) && |r| <= 5 && (forall k :: 0 <= k < |r| ==> ByConsumer(r[k]))
    ensures |s.popped| <= |s.pushed| && (|s.popped| < |s.pushed| ==> |s.chain| > 1)
    ensures var t := Exec(s, r);
      && t.consumer.Ready? && t.pushed == s.pushed && t.producers == s.producers
      && (NothingToPop(s) ==> t == s)
      && (!NothingToPop(s) ==> t.popped == s.popped + [s.pushed[|s.popped|]])
  {
    ChainSize(s);
    var s2 := Step(Step(s, LoadHead), LoadNext);
    StepKeeps(s, LoadHead);
    WhyPopFails(Step(s, LoadHead));
    if NothingToPop(s) {
      NoRun(s);
      assert Step(s2, ReturnFalse) == s;
      hide Inv, Step, Enabled, CanRun, Exec;
      ConsRun(s2, ReturnFalse, []);
      r := [ReturnFalse];
    } else {
      FinishPop(s);
      r := [CopyItem, StoreHead, Delete];
      hide *;
    }
    LoadsFirst(s, r);
    r := [LoadHead, LoadNext] + r;
  }

  lemma LoadsFirst(s: State, r: Run)
    requires s.consumer.Ready? && CanRun(Step(Step(s, LoadHead), LoadNext), r)
    ensures CanRun(s, [LoadHead, LoadNext] + r)
    ensures Exec(s, [LoadHead, LoadNext] + r) == Exec(Step(Step(s, LoadHead), LoadNext), r)
  {
    hide CanRun, Exec;
    ConsRun(Step(s, LoadHead), LoadNext, r);
    ConsRun(s, LoadHead, [LoadNext] + r);
    assert [LoadHead] + ([LoadNext] + r) == [LoadHead, LoadNext] + r;
  }

  /** With a value there, the rest of the call takes it. */
  lemma FinishPop(s: State)
    requires Inv(s) && s.consumer.Ready? && Enabled(Step(Step(s, LoadHead), LoadNext), CopyItem)
    ensures var s2, r := Step(Step(s, LoadHead), LoadNext), [CopyItem, StoreHead, Delete];
      && CanRun(s2, r)
      && |s.popped| < |s.pushed| && Exec(s2, r).popped == s.popped + [s.pushed[|s.popped|]]
      && Exec(s2, r).consumer.Ready? && Exec(s2, r).pushed == s.pushed && Exec(s2, r).producers == s.producers
  {
    var s2 := Step(Step(s, LoadHead), LoadNext);
    NextRead(s);
    ChainSize(s);
    var s3 := Step(s2, CopyItem);
    assert s3.consumer.item == s.pushed[|s.popped|];
    hide Inv;
    var s4 := Step(s3, StoreHead);
    NoRun(Step(s4, Delete));
    hide CanRun, Exec;
    ConsRun(s4, Delete, []);
    ConsRun(s3, StoreHead, [Delete]);
    ConsRun(s2, CopyItem, [StoreHead, Delete]);
    assert [StoreHead] + [Delete] == [StoreHead, Delete] && [CopyItem] + [StoreHead, Delete] == [CopyItem, StoreHead, Delete];
  }

  /** A whole call of `push` undisturbed: three steps, and its value is the newest. */
  lemma PushAlone(s: State, i: nat, v: Value, addr: nat)
    requires Inv(s) && i < |s.producers| && s.producers[i].Idle? && addr != 0 && addr !in s.mem
    ensures CanRun(s, [New(i, v, addr), Exchange(i), Link(i)])
    ensures var t := Exec(s, [New(i, v, addr), Exchange(i), Link(i)]);
      t.pushed == s.pushed + [v] && t.popped == s.popped && t.producers == s.producers
  {
    hide Inv;
    var s1 := Step(s, New(i, v, addr));
    var s2 := Step(s1, Exchange(i));
    NoRun(Step(s2, Link(i)));
    hide CanRun, Exec;
    ConsRun(s2, Link(i), []);
    ConsRun(s1, Exchange(i), [Link(i)]);
    ConsRun(s, New(i, v, addr), [Exchange(i), Link(i)]);
    assert [Exchange(i)] + [Link(i)] == [Exchange(i), Link(i)];
    assert [New(i, v, addr)] + [Exchange(i), Link(i)] == [New(i, v, addr), Exchange(i), Link(i)];
  }

  /** The nodes an action reads, writes or deletes. */
  function Touched(s: State, a: Action): set<nat>
    requires Enabled(s, a)
  {
    match a
    case Exchange(i) => {s.producers[i].node}
    case Link(i) => {s.producers[i].prev}
    case LoadNext => {s.consumer.h}
    case CopyItem => {s.consumer.next}
    case Delete => {s.consumer.h}
    case _ => {}
  }

  /** No node is touched, or deleted again, after its delete. */
  lemma TouchesLiveNodes(s: State, a: Action)
    requires Inv(s) && Enabled(s, a)
    ensures Touched(s, a) <= s.mem.Keys
    ensures a.Delete? ==> s.consumer.h !in s.chain && Allocated(s.consumer.h) !in s.producers
  {
    ChainLive(s);
    if a.Link? { assert ProducerOk(s.mem, s.chain, s.producers[a.i]); }
    assert a.LoadNext? ==> s.consumer.h == s.chain[0];
    assert a.CopyItem? ==> s.consumer.next == s.chain[1];
  }

  /** `~MpscQueue`: walk from head to null, deleting every node. */
  method Destroy(s: State) returns (mem: map<nat, Node>)
    requires Inv(s) && s.consumer == Ready && forall i :: 0 <= i < |s.producers| ==> s.producers[i].Idle?
    ensures mem == map[]
  {
    SettledReaches(s.mem, s.producers, s.chain);
    mem := s.mem;
    var head := s.head;
    ghost var rest := s.chain;
    forall a | a in mem ensures a in rest { assert Claimed(s, a); }
    ChainLive(s);
    while head != 0
      invariant Reaches(mem, head, rest) && (forall a :: a in mem <==> a in rest) && 0 !in rest
      invariant forall j, k :: 0 <= j < k < |rest| ==> rest[j] != rest[k]
      decreases |rest|
    {
      var node := head;
      head := mem[node].next;
      ReachesFrame(mem, mem - {node}, head, rest[1..]);
      assert rest == [node] + rest[1..];
      mem := mem - {node};
      rest := rest[1..];
    }
  }

  lemma {:induction false} ReachesFrame(m: map<nat, Node>, w: map<nat, Node>, p: nat, chain: seq<nat>)
    requires Reaches(m, p, chain)
    requires forall a :: a in chain && a in m ==> a in w && w[a] == m[a]
    ensures Reaches(w, p, chain)
    decreases |chain|
  {
    if |chain| > 0 {
      assert chain[0] in chain && forall a :: a in chain[1..] ==> a in chain;
      ReachesFrame(m, w, m[p].next, chain[1..]);
    }
  }
}

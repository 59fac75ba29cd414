/** What histories of calls keep: bags gathered from the threads that carry
  * values, and the part of a shared log that one thread wrote. */
module Histories {

  /** The values carried by all members of xs together. */
  ghost function Gather<T, V>(xs: seq<T>, f: T -> multiset<V>): multiset<V> {
    if |xs| == 0 then multiset{} else Gather(xs[..|xs| - 1], f) + f(xs[|xs| - 1])
  }

  /** One member changes, and what the others carry stays the same. */
  lemma {:induction false} GatherChange<T, V>(xs: seq<T>, f: T -> multiset<V>, g: T -> multiset<V>, i: nat, x: T)
    returns (others: multiset<V>)
    requires i < |xs| && forall j :: 0 <= j < |xs| && j != i ==> f(xs[j]) == g(xs[j])
    ensures Gather(xs, f) == others + f(xs[i])
    ensures Gather(xs[i := x], g) == others + g(x)
  {
    var m := |xs| - 1;
    var ys := xs[i := x];
    if i < m {
      var before := GatherChange(xs[..m], f, g, i, x);
      assert ys[..m] == xs[..m][i := x] && ys[m] == xs[m];
      others := before + f(xs[m]);
    } else {
      GatherSame(xs[..m], f, g);
      assert ys[..m] == xs[..m];
      others := Gather(xs[..m], f);
    }
  }

  lemma {:induction false} GatherSame<T, V>(xs: seq<T>, f: T -> multiset<V>, g: T -> multiset<V>)
    requires forall j :: 0 <= j < |xs| ==> f(xs[j]) == g(xs[j])
    ensures Gather(xs, g) == Gather(xs, f)
  {
    if |xs| > 0 { GatherSame(xs[..|xs| - 1], f, g); }
  }

  lemma {:induction false} GatherNone<T, V>(xs: seq<T>, f: T -> multiset<V>)
    requires forall j :: 0 <= j < |xs| ==> f(xs[j]) == multiset{}
    ensures Gather(xs, f) == multiset{}
  {
    if |xs| > 0 { GatherNone(xs[..|xs| - 1], f); }
  }

  lemma GatherAppend<T, V>(xs: seq<T>, x: T, f: T -> multiset<V>)
    ensures Gather(xs + [x], f) == Gather(xs, f) + f(x)
  {
    assert (xs + [x])[..|xs|] == xs;
  }

  /** The entries of a log that thread i wrote, in order. */
  function Of<V>(log: seq<V>, who: seq<nat>, i: nat): seq<V>
    requires |who| == |log|
  {
    if |log| == 0 then []
    else
      var m := |log| - 1;
      Of(log[..m], who[..m], i) + if who[m] == i then [log[m]] else []
  }

  lemma OfAppend<V>(log: seq<V>, who: seq<nat>, v: V, w: nat, i: nat)
    requires |who| == |log|
    ensures Of(log + [v], who + [w], i) == Of(log, who, i) + if w == i then [v] else []
  {
    assert (log + [v])[..|log|] == log && (who + [w])[..|who|] == who;
  }

  function Bag<V>(xs: seq<V>): multiset<V> {
    multiset(xs)
  }

  lemma OfLast<V>(log: seq<V>, who: seq<nat>, i: nat)
    requires |who| == |log| > 0
    ensures var m := |log| - 1;
      Of(log, who, i) == Of(log[..m], who[..m], i) + if who[m] == i then [log[m]] else []
  {
  }

  /** One part longer by one entry. */
  lemma OneMore<V>(parts: seq<seq<V>>, w: nat, before: seq<V>, x: V)
    requires w < |parts| && parts[w] == before + [x]
    ensures Gather(parts, Bag) == Gather(parts[w := before], Bag) + multiset{x}
  {
    hide Gather;
    var others := GatherChange(parts, Bag, Bag, w, before);
    BagAppend(before, x);
  }

  /** A log is made of what each thread wrote. */
  lemma {:induction false} LogIsShared<V>(log: seq<V>, who: seq<nat>, parts: seq<seq<V>>)
    requires |who| == |log| && (forall k :: 0 <= k < |who| ==> who[k] < |parts|)
    requires forall i :: 0 <= i < |parts| ==> parts[i] == Of(log, who, i)
    ensures Bag(log) == Gather(parts, Bag)
  {
    hide *;
    if |log| == 0 {
      NothingShared(log, who, parts);
    } else {
      var m := |log| - 1;
      var before := Of(log[..m], who[..m], who[m]);
      var smaller := parts[who[m] := before];
      forall i | 0 <= i < |parts| ensures smaller[i] == Of(log[..m], who[..m], i) { OfLast(log, who, i); }
      LogIsShared(log[..m], who[..m], smaller);
      OfLast(log, who, who[m]);
      SharedNext(log, parts, who[m], before);
    }
  }

  lemma NothingShared<V>(log: seq<V>, who: seq<nat>, parts: seq<seq<V>>)
    requires |who| == |log| == 0 && forall i :: 0 <= i < |parts| ==> parts[i] == Of(log, who, i)
    ensures Bag(log) == Gather(parts, Bag)
  {
    GatherNone(parts, Bag);
  }

  /** The last entry of the log is the last of its writer's part. */
  lemma SharedNext<V>(log: seq<V>, parts: seq<seq<V>>, w: nat, before: seq<V>)
    requires |log| > 0 && w < |parts| && parts[w] == before + [log[|log| - 1]]
    requires Bag(log[..|log| - 1]) == Gather(parts[w := before], Bag)
    ensures Bag(log) == Gather(parts, Bag)
  {
    hide *;
    var m := |log| - 1;
    OneMore(parts, w, before, log[m]);
    assert log == log[..m] + [log[m]];
    BagAppend(log[..m], log[m]);
  }

  lemma BagAppend<V>(xs: seq<V>, x: V)
    ensures Bag(xs + [x]) == Bag(xs) + multiset{x}
  {
  }
}

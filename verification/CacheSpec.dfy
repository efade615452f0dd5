/** What the cache of one repository means: an ordered list of cells, each naming the
    cached object and giving its ID and its two mutable fields. `O` is whatever names an
    object: a pointer for the heap store, an accept number for the protocol. */
module CacheSpec {
  import opened Events

  datatype Cell<O> = Cell(obj: O, id: string, relayed: bool, time: Time)

  /** How long a relayed event is kept: two minutes. */
  const RETENTION: Time := 120_000_000_000

  ghost predicate UniqueIds<O>(cs: seq<Cell<O>>) {
    forall i, j :: 0 <= i < j < |cs| ==> cs[i].id != cs[j].id
  }

  /** Whether a cleaner that reads the clock at `at` drops the cell. */
  predicate Due<O>(c: Cell<O>, at: Time) {
    c.relayed && at > c.time + RETENTION
  }

  /** A cleaner's scan of the first `n` cells as one order-preserving filter; `at[i]` is the
      clock reading made for the i-th cell. */
  ghost function Kept<O>(cs: seq<Cell<O>>, at: seq<Time>, n: nat): seq<Cell<O>>
    requires n <= |cs| && n <= |at|
  {
    if n == 0 then []
    else Kept(cs, at, n - 1) + (if Due(cs[n-1], at[n-1]) then [] else [cs[n-1]])
  }

  /** Relayed cells come first. */
  ghost predicate RelayedFirst<O>(cs: seq<Cell<O>>) {
    forall i, j :: 0 <= i < j < |cs| && cs[j].relayed ==> cs[i].relayed
  }

  ghost predicate TimesOrdered<O>(cs: seq<Cell<O>>) {
    forall i, j :: 0 <= i < j < |cs| && cs[j].relayed ==> cs[i].time <= cs[j].time
  }

  ghost predicate NonDecreasing(at: seq<Time>) {
    forall i, j :: 0 <= i < j < |at| ==> at[i] <= at[j]
  }

  // ---------- Streams of deliveries ----------

  ghost predicate HasEvent(es: seq<EventData>, id: string) {
    exists i :: 0 <= i < |es| && es[i].id == id
  }

  /** A cache that takes events one after the other and turns away IDs it holds. */
  ghost function AddAll(held: seq<EventData>, es: seq<EventData>): seq<EventData> {
    if es == [] then held
    else
      var front := AddAll(held, es[..|es|-1]);
      if HasEvent(front, es[|es|-1].id) then front else front + [es[|es|-1]]
  }

  /** The first occurrence of every ID, in order. */
  ghost function FirstOccurrences(es: seq<EventData>): seq<EventData> {
    AddAll([], es)
  }

  /** No event before the i-th has its ID. */
  ghost predicate FirstAt(es: seq<EventData>, i: nat) {
    i < |es| && forall h :: 0 <= h < i ==> es[h].id != es[i].id
  }

  ghost predicate Ascending(pos: seq<nat>) {
    forall f, g :: 0 <= f < g < |pos| ==> pos[f] < pos[g]
  }

  /** The reference reading of `FirstOccurrences`: the events at exactly those positions
      where an ID comes up for the first time, in the order of the positions. */
  lemma {:induction false} FirstOccurrencesAre(es: seq<EventData>) returns (pos: seq<nat>)
    ensures |pos| == |FirstOccurrences(es)| && Ascending(pos)
    ensures forall f :: 0 <= f < |pos| ==> FirstAt(es, pos[f]) && FirstOccurrences(es)[f] == es[pos[f]]
    ensures forall i :: FirstAt(es, i) ==> i in pos
  {
    if es == [] {
      pos := [];
    } else {
      var n := |es| - 1;
      pos := FirstOccurrencesAre(es[..n]);
      assert forall i :: 0 <= i < n ==> (FirstAt(es, i) <==> FirstAt(es[..n], i));
      KnownIffNotFirst(es, n, pos);
      if FirstAt(es, n) { pos := pos + [n]; }
    }
  }

  lemma KnownIffNotFirst(es: seq<EventData>, n: nat, pos: seq<nat>)
    requires n < |es| && |pos| == |FirstOccurrences(es[..n])|
    requires forall f :: 0 <= f < |pos| ==> FirstAt(es[..n], pos[f]) && FirstOccurrences(es[..n])[f] == es[pos[f]]
    requires forall i :: FirstAt(es[..n], i) ==> i in pos
    ensures HasEvent(FirstOccurrences(es[..n]), es[n].id) <==> !FirstAt(es, n)
  {
    if !FirstAt(es, n) {
      var i := FirstWith(es[..n], es[n].id);
      var f :| 0 <= f < |pos| && pos[f] == i;
      assert FirstOccurrences(es[..n])[f].id == es[n].id;
    }
  }

  lemma {:induction false} FirstWith(es: seq<EventData>, id: string) returns (i: nat)
    requires HasEvent(es, id)
    ensures FirstAt(es, i) && es[i].id == id
  {
    i :| 0 <= i < |es| && es[i].id == id;
    if HasEvent(es[..i], id) {
      i := FirstWith(es[..i], id);
    } else {
      forall h | 0 <= h < i ensures es[h].id != id { assert es[..i][h] == es[h]; }
    }
  }

  /** Every ID that was offered is held. */
  lemma {:induction false} EachIdHeld(es: seq<EventData>, i: nat)
    requires i < |es|
    ensures HasEvent(FirstOccurrences(es), es[i].id)
  {
    var pos := FirstOccurrencesAre(es);
    assert HasEvent(es, es[i].id);
    var first := FirstWith(es, es[i].id);
    var f :| 0 <= f < |pos| && pos[f] == first;
    assert FirstOccurrences(es)[f].id == es[i].id;
  }

  /** Nothing held is given up, every ID offered is held, and nothing else is. */
  lemma {:induction false} AddAllMembers(held: seq<EventData>, es: seq<EventData>)
    ensures held <= AddAll(held, es)
    ensures forall i :: 0 <= i < |es| ==> HasEvent(AddAll(held, es), es[i].id)
    ensures forall e :: e in AddAll(held, es) ==> e in held || e in es
  {
    if es == [] {
    } else {
      var n := |es| - 1;
      var front, all, last := AddAll(held, es[..n]), AddAll(held, es), es[n];
      AddAllMembers(held, es[..n]);
      assert es == es[..n] + [last];
      assert HasEvent(all, last.id) by { if !HasEvent(front, last.id) { assert all[|front|] == last; } }
      forall i | 0 <= i < n ensures HasEvent(all, es[i].id) {
        assert HasEvent(front, es[..n][i].id);
        var f :| 0 <= f < |front| && front[f].id == es[i].id;
        assert all[f] == front[f];
      }
    }
  }

  lemma {:induction false} AddAllDistinct(held: seq<EventData>, es: seq<EventData>)
    requires forall i, j :: 0 <= i < j < |held| ==> held[i].id != held[j].id
    ensures forall i, j :: 0 <= i < j < |AddAll(held, es)| ==> AddAll(held, es)[i].id != AddAll(held, es)[j].id
  {
    if es == [] {
    } else {
      AddAllDistinct(held, es[..|es|-1]);
    }
  }

  lemma {:induction false} AddAllAppend(held: seq<EventData>, a: seq<EventData>, b: seq<EventData>)
    ensures AddAll(held, a + b) == AddAll(AddAll(held, a), b)
    decreases |b|
  {
    if b == [] {
      assert a + b == a;
    } else {
      AddAllAppend(held, a, b[..|b|-1]);
      assert (a + b)[..|a+b|-1] == a + b[..|b|-1];
    }
  }

  lemma {:induction false} AddAllPrefix(held: seq<EventData>, es: seq<EventData>, k: nat)
    requires k <= |es|
    ensures AddAll(held, es[..k]) <= AddAll(held, es)
    decreases |es| - k
  {
    if k < |es| {
      AddAllPrefix(held, es, k + 1);
      assert es[..k+1][..k] == es[..k];
    } else {
      assert es[..k] == es;
    }
  }

  // ---------- Lemmas ----------

  lemma {:induction false} KeptMembers<O>(cs: seq<Cell<O>>, at: seq<Time>, n: nat)
    requires n <= |cs| && n <= |at|
    ensures forall k :: 0 <= k < |Kept(cs, at, n)| ==>
              exists i :: 0 <= i < n && Kept(cs, at, n)[k] == cs[i] && !Due(cs[i], at[i])
    ensures forall i :: 0 <= i < n && !Due(cs[i], at[i]) ==> cs[i] in Kept(cs, at, n)
  {
    if n > 0 {
      KeptMembers(cs, at, n - 1);
      var front, kept := Kept(cs, at, n - 1), Kept(cs, at, n);
      forall k | 0 <= k < |kept| ensures exists i :: 0 <= i < n && kept[k] == cs[i] && !Due(cs[i], at[i]) {
        if k < |front| {
          var i :| 0 <= i < n - 1 && front[k] == cs[i] && !Due(cs[i], at[i]);
          assert kept[k] == cs[i];
        } else {
          assert kept[k] == cs[n-1];
        }
      }
    } else {
      assert Kept(cs, at, n) == [];
    }
  }

  lemma {:induction false} KeptExactly<O>(cs: seq<Cell<O>>, at: seq<Time>, i: nat)
    requires i < |cs| == |at| && UniqueIds(cs)
    ensures cs[i] in Kept(cs, at, |cs|) <==> !Due(cs[i], at[i])
    ensures forall h :: 0 <= h < |cs| && cs[h] == cs[i] ==> h == i
  {
    KeptMembers(cs, at, |cs|);
    assert forall h :: 0 <= h < |cs| && h != i ==> cs[h].id != cs[i].id;
  }

  lemma {:induction false} KeptDistinct<O>(cs: seq<Cell<O>>, at: seq<Time>, n: nat)
    requires n <= |cs| && n <= |at| && UniqueIds(cs)
    ensures UniqueIds(Kept(cs, at, n))
  {
    if n == 0 {
    } else {
      KeptDistinct(cs, at, n - 1);
      KeptMembers(cs, at, n - 1);
    }
  }

  lemma {:induction false} KeptReadsFirst<O>(cs: seq<Cell<O>>, at: seq<Time>, at': seq<Time>, n: nat)
    requires n <= |cs| && n <= |at| && n <= |at'| && forall i :: 0 <= i < n ==> at[i] == at'[i]
    ensures Kept(cs, at, n) == Kept(cs, at', n)
  {
    if n == 0 {
    } else {
      KeptReadsFirst(cs, at, at', n - 1);
    }
  }

  lemma {:induction false} KeptSnoc<O>(cs: seq<Cell<O>>, at: seq<Time>, now: Time)
    requires |at| < |cs|
    ensures Kept(cs, at + [now], |at| + 1) == Kept(cs, at, |at|) + (if Due(cs[|at|], now) then [] else [cs[|at|]])
  {
    KeptReadsFirst(cs, at, at + [now], |at|);
  }

  lemma {:induction false} KeptOfFront<O>(front: seq<Cell<O>>, last: Cell<O>, at: seq<Time>, n: nat)
    requires n <= |front| < |at|
    ensures Kept(front + [last], at, n) == Kept(front, at[..|front|], n)
  {
    if n == 0 {
    } else {
      KeptOfFront(front, last, at, n - 1);
    }
  }

  lemma {:induction false} KeptLast<O>(front: seq<Cell<O>>, last: Cell<O>, at: seq<Time>)
    requires |at| == |front| + 1
    ensures Kept(front + [last], at, |at|) ==
            Kept(front, at[..|front|], |front|) + (if Due(last, at[|front|]) then [] else [last])
  {
    KeptOfFront(front, last, at, |front|);
  }

  ghost predicate Within(at: seq<Time>, start: Time, now: Time) {
    forall i :: 0 <= i < |at| ==> start <= at[i] <= now
  }

  lemma WithinSnoc(at: seq<Time>, t: Time, start: Time, now: Time)
    requires Within(at, start, now) && start <= t <= now
    ensures Within(at + [t], start, now)
  {}

  lemma WithinParts(at: seq<Time>, start: Time, now: Time)
    requires Within(at, start, now) && at != []
    ensures Within(at[..|at|-1], start, now) && start <= at[|at|-1] <= now
  {}

  /** Filtering what a filter left is one filter: a cell's reading is that of the first
      scan if it went then, and otherwise that of the second. */
  lemma {:induction false} KeptTwice<O>(cs: seq<Cell<O>>, a: seq<Time>, b: seq<Time>, start: Time, now: Time)
    returns (c: seq<Time>)
    requires |a| <= |cs| && |b| == |Kept(cs, a, |a|)| && Within(a, start, now) && Within(b, start, now)
    ensures |c| == |a| && Within(c, start, now)
    ensures Kept(Kept(cs, a, |a|), b, |b|) == Kept(cs, c, |a|)
    decreases |a|
  {
    hide Kept, Due, Within;
    if a == [] {
      c := [];
      KeptNone(cs, a);
      KeptNone(Kept(cs, a, 0), b);
    } else {
      var n := |a| - 1;
      var front, a0 := Kept(cs, a[..n], n), a[..n];
      WithinParts(a, start, now);
      KeptSnoc(cs, a0, a[n]);
      assert a == a0 + [a[n]];
      if Due(cs[n], a[n]) {
        assert Kept(cs, a, n + 1) == front;
        c := KeptTwice(cs, a0, b, start, now);
        KeptSnoc(cs, c, a[n]);
        WithinSnoc(c, a[n], start, now);
        c := c + [a[n]];
      } else {
        var m := |front|;
        WithinParts(b, start, now);
        c := KeptTwice(cs, a0, b[..m], start, now);
        KeptSnoc(cs, c, b[m]);
        KeptLast(front, cs[n], b);
        WithinSnoc(c, b[m], start, now);
        c := c + [b[m]];
      }
    }
  }

  lemma KeptNone<O>(cs: seq<Cell<O>>, at: seq<Time>)
    ensures Kept(cs, at, 0) == []
  {}

  lemma {:induction false} KeptAfterPrefix<O>(cs: seq<Cell<O>>, at: seq<Time>, k: nat, n: nat)
    requires k <= n <= |cs| && n <= |at|
    requires forall i :: 0 <= i < n ==> (Due(cs[i], at[i]) <==> i < k)
    ensures Kept(cs, at, n) == cs[k..n]
  {
    if n > k {
      KeptAfterPrefix(cs, at, k, n - 1);
    } else if n > 0 {
      KeptAfterPrefix(cs, at, k - 1, n - 1);
    }
  }

  /** A queue as the fetch handler leaves it: relayed cells first, marked in order. */
  ghost predicate Ordered<O>(cs: seq<Cell<O>>) {
    UniqueIds(cs) && RelayedFirst(cs) && TimesOrdered(cs)
  }

  ghost predicate LosesPrefix<O>(cs: seq<Cell<O>>, at: seq<Time>)
    requires |at| == |cs|
  {
    exists k :: 0 <= k <= |cs| && Kept(cs, at, |cs|) == cs[k..]
  }

  ghost predicate NonIncreasing(at: seq<Time>) {
    forall i, j :: 0 <= i < j < |at| ==> at[j] <= at[i]
  }

  /** Where no reading is later than one before it, cleaning an ordered cache drops exactly
      the cells due, and they are a prefix. */
  lemma {:induction false} CleanupDequeues<O>(cs: seq<Cell<O>>, at: seq<Time>) returns (k: nat)
    requires Ordered(cs) && |at| == |cs| && NonIncreasing(at)
    ensures k <= |cs| && Kept(cs, at, |cs|) == cs[k..]
    ensures forall i :: 0 <= i < |cs| ==> (i < k <==> Due(cs[i], at[i]))
  {
    k := 0;
    while k < |cs| && Due(cs[k], at[k])
      invariant k <= |cs|
      invariant forall i :: 0 <= i < k ==> Due(cs[i], at[i])
    {
      k := k + 1;
    }
    forall i | k <= i < |cs| ensures !Due(cs[i], at[i]) {
      if i > k && cs[i].relayed {
        assert cs[k].relayed && cs[k].time <= cs[i].time && at[i] <= at[k];
      }
    }
    KeptAfterPrefix(cs, at, k, |cs|);
  }

  /** Relayed cells, all marked at the same instant. */
  ghost function MarkedTogether(n: nat, time: Time): seq<Cell<nat>> {
    seq(n, i requires 0 <= i < n => Cell(i, seq(i, _ => 'x'), true, time))
  }

  lemma {:induction false} MarkedTogetherOrdered(n: nat, time: Time)
    ensures Ordered(MarkedTogether(n, time))
  {
    var cs := MarkedTogether(n, time);
    forall a, b | 0 <= a < b < n ensures cs[a].id != cs[b].id {
      assert |cs[a].id| == a && |cs[b].id| == b;
    }
  }

  lemma {:induction false} NoSuffix<O>(cs: seq<Cell<O>>, kept: seq<Cell<O>>, i: nat, j: nat)
    requires i < j < |cs| && cs[i] in kept && cs[j] !in kept
    requires forall h :: 0 <= h < |cs| && cs[h] == cs[i] ==> h == i
    ensures forall k :: 0 <= k <= |cs| ==> kept != cs[k..]
  {
    forall k | 0 <= k <= |cs| ensures kept != cs[k..] {
      if k <= i {
        assert cs[k..][j - k] == cs[j];
      } else {
        assert forall h :: 0 <= h < |cs[k..]| ==> cs[k..][h] == cs[k + h];
      }
    }
  }

  /** A reading `at[j]` later than `at[i]` before it: of cells marked just over two minutes
      before `at[j]`, the earlier one stays and the later one goes. */
  lemma {:induction false} LaterReadingBreaksQueue(at: seq<Time>, i: nat, j: nat) returns (cs: seq<Cell<nat>>)
    requires i < j < |at| && at[i] < at[j]
    ensures |cs| == |at| && Ordered(cs) && !LosesPrefix(cs, at)
  {
    cs := MarkedTogether(|at|, at[j] - RETENTION - 1);
    MarkedTogetherOrdered(|at|, at[j] - RETENTION - 1);
    KeptExactly(cs, at, i);
    KeptExactly(cs, at, j);
    NoSuffix(cs, Kept(cs, at, |cs|), i, j);
  }

  /** The exact clock readings with which cleaning dequeues: it drops a prefix of every
      ordered cache if and only if no reading is later than one before it. Since a clock
      does not go back, that is, if and only if all readings of the tick are equal. */
  lemma {:induction false} DequeuesIffOneInstant(at: seq<Time>)
    ensures (forall cs: seq<Cell<nat>> :: |cs| == |at| && Ordered(cs) ==> LosesPrefix(cs, at)) <==> NonIncreasing(at)
    ensures NonDecreasing(at) ==> (NonIncreasing(at) <==> forall i, j :: 0 <= i < j < |at| ==> at[i] == at[j])
  {
    if NonIncreasing(at) {
      forall cs: seq<Cell<nat>> | |cs| == |at| && Ordered(cs) ensures LosesPrefix(cs, at) {
        var k := CleanupDequeues(cs, at);
      }
    } else {
      var i, j :| 0 <= i < j < |at| && at[i] < at[j];
      var cs := LaterReadingBreaksQueue(at, i, j);
    }
  }
}

/** The machine and the heap agree: from lists that read the same, each operation of the
    heap store and the machine's steps for it lead to lists that read the same. */
module Correspondence {
  import opened Events
  import opened Codec
  import opened CacheSpec
  import opened EventStore
  import opened Ticks
  import opened Protocol
  import opened CleanerTick

  /** What a reader sees of one cached event. */
  datatype Row = Row(data: EventData, relayed: bool, time: Time)

  ghost function RowOf(e: CachedEvent): Row
    reads e
  {
    Row(e.data, e.isRelayed, e.timeRelayed)
  }

  ghost function Rows(ps: seq<CachedEvent>): seq<Row>
    reads ps
  {
    seq(|ps|, i requires 0 <= i < |ps| reads ps => RowOf(ps[i]))
  }

  ghost function RowAt(heap: seq<Obj>, o: nat): Row
    requires o < |heap|
  {
    Row(heap[o].data, heap[o].relayed, heap[o].time)
  }

  ghost function RowsAt(heap: seq<Obj>, list: seq<nat>): seq<Row>
    requires Below(list, |heap|)
  {
    seq(|list|, i requires 0 <= i < |list| => RowAt(heap, list[i]))
  }

  /** The repository's list on the heap reads as the machine's list. */
  ghost predicate Agree(ps: seq<CachedEvent>, s: State)
    reads ps
  {
    Below(s.list, |s.heap|) && Rows(ps) == RowsAt(s.heap, s.list)
  }

  lemma AgreeAt(ps: seq<CachedEvent>, s: State)
    requires Agree(ps, s)
    ensures |ps| == |s.list|
    ensures forall i :: 0 <= i < |ps| ==>
              s.list[i] < |s.heap| && ps[i].data == s.heap[s.list[i]].data && ps[i].data.id == IdOf(s.heap, s.list[i])
    ensures forall i :: 0 <= i < |ps| ==>
              (ps[i].isRelayed <==> Flag(s.heap, s.list[i])) && ps[i].timeRelayed == Stamp(s.heap, s.list[i])
  {
    assert |Rows(ps)| == |RowsAt(s.heap, s.list)|;
    forall i | 0 <= i < |ps|
      ensures s.list[i] < |s.heap| && ps[i].data == s.heap[s.list[i]].data
      ensures (ps[i].isRelayed <==> s.heap[s.list[i]].relayed) && ps[i].timeRelayed == s.heap[s.list[i]].time
    {
      assert Rows(ps)[i] == RowsAt(s.heap, s.list)[i];
    }
  }

  // ---------- Store and ingest ----------

  /** `Store` of a new event is the machine's `Ingest`. */
  method StoreIsIngest(store: InMemoryStore, r: string, e: CachedEvent, ghost s: State) returns (stored: bool)
    requires store.Valid() && Agree(store.Cached(r), s)
    requires !e.isRelayed && e.timeRelayed == ZERO_TIME
    modifies store, store.arrays, e`isRelayed
    ensures store.Valid() && Agree(store.Cached(r), Ingest(s, e.data))
    ensures stored <==> Ingest(s, e.data) != s
  {
    hide InMemoryStore.Valid, Agree, Ingest, Rows;
    ghost var ps := store.Cached(r);
    IngestAgrees(ps, e, s);
    stored := store.Store(r, e);
  }

  lemma IngestAgrees(ps: seq<CachedEvent>, e: CachedEvent, s: State)
    requires Agree(ps, s) && !e.isRelayed && e.timeRelayed == ZERO_TIME
    ensures HoldsId(ps, e.data.id) <==> Holds(s.heap, s.list, e.data.id)
    ensures Agree(if HoldsId(ps, e.data.id) then ps else ps + [e], Ingest(s, e.data))
    ensures HoldsId(ps, e.data.id) <==> Ingest(s, e.data) == s
  {
    AgreeAt(ps, s);
    var s' := Ingest(s, e.data);
    if !Holds(s.heap, s.list, e.data.id) {
      assert |s'.heap| == |s.heap| + 1;
      assert Rows(ps + [e]) == Rows(ps) + [RowOf(e)];
      assert RowsAt(s'.heap, s'.list) == RowsAt(s.heap, s.list) + [RowAt(s'.heap, |s.heap|)];
    }
  }

  // ---------- Removal and the cleaner's tick ----------

  /** Removing by ID on the heap is what the machine's removal does. */
  lemma {:induction false} RemovalAgrees(ps: seq<CachedEvent>, s: State, id: string, n: nat)
    requires Agree(ps, s) && n <= |ps|
    ensures n <= |s.list| && Agree(OthersUpTo(ps, id, n), s.(list := Keep(s.heap, s.list, id, n)))
  {
    hide OthersUpTo, Keep;
    AgreeAt(ps, s);
    if n == 0 {
      NoneLeft(ps, s, id);
    } else {
      RemovalAgrees(ps, s, id, n - 1);
      var front, kept := OthersUpTo(ps, id, n - 1), Keep(s.heap, s.list, id, n - 1);
      OthersSnoc(ps, id, n);
      KeepSnoc(s.heap, s.list, id, n);
      if ps[n-1].data.id != id {
        assert Rows(front + [ps[n-1]]) == Rows(front) + [RowOf(ps[n-1])];
        assert RowsAt(s.heap, kept + [s.list[n-1]]) == RowsAt(s.heap, kept) + [RowAt(s.heap, s.list[n-1])];
      }
    }
  }

  lemma NoneLeft(ps: seq<CachedEvent>, s: State, id: string)
    ensures Agree(OthersUpTo(ps, id, 0), s.(list := Keep(s.heap, s.list, id, 0)))
  {
    assert Rows([]) == [] && RowsAt(s.heap, []) == [];
  }

  /** Two lists whose cells are alike lose cells at the same positions. */
  lemma {:induction false} KeptTogether<A, B>(cs: seq<Cell<A>>, ds: seq<Cell<B>>, at: seq<Time>, n: nat)
    returns (pos: seq<nat>)
    requires |cs| == |ds| && n <= |cs| && n <= |at|
    requires forall i :: 0 <= i < |cs| ==> cs[i].relayed == ds[i].relayed && cs[i].time == ds[i].time
    ensures PickedBy(cs, Kept(cs, at, n), pos) && PickedBy(ds, Kept(ds, at, n), pos)
  {
    hide Kept, PickedBy;
    KeptLastOf(cs, at, n);
    KeptLastOf(ds, at, n);
    if n == 0 {
      pos := [];
      PickedNone(cs);
      PickedNone(ds);
    } else {
      pos := KeptTogether(cs, ds, at, n - 1);
      if !Due(cs[n-1], at[n-1]) {
        PickedSnoc(cs, Kept(cs, at, n - 1), pos, n - 1);
        PickedSnoc(ds, Kept(ds, at, n - 1), pos, n - 1);
        pos := pos + [n - 1];
      }
    }
  }

  /** `kept` is the cells at these positions. */
  ghost predicate PickedBy<O>(cs: seq<Cell<O>>, kept: seq<Cell<O>>, pos: seq<nat>) {
    |kept| == |pos| && forall k :: 0 <= k < |pos| ==> pos[k] < |cs| && kept[k] == cs[pos[k]]
  }

  lemma PickedNone<O>(cs: seq<Cell<O>>)
    ensures PickedBy(cs, [], [])
  {}

  lemma PickedSnoc<O>(cs: seq<Cell<O>>, kept: seq<Cell<O>>, pos: seq<nat>, i: nat)
    requires PickedBy(cs, kept, pos) && i < |cs|
    ensures PickedBy(cs, kept + [cs[i]], pos + [i])
  {}

  lemma KeptLastOf<O>(cs: seq<Cell<O>>, at: seq<Time>, n: nat)
    requires n <= |cs| && n <= |at|
    ensures Kept(cs, at, n) ==
            if n == 0 then []
            else if Due(cs[n-1], at[n-1]) then Kept(cs, at, n - 1) else Kept(cs, at, n - 1) + [cs[n-1]]
  {
    assert n > 0 ==> Kept(cs, at, n - 1) + [] == Kept(cs, at, n - 1);
  }

  /** What a filter of the heap list and one of the machine's list leave, at the same clock
      readings, reads the same. */
  lemma CleaningAgrees(ps: seq<CachedEvent>, s: State, at: seq<Time>, after: seq<CachedEvent>, s': State)
    requires Agree(ps, s) && |at| == |ps| == |s.list|
    requires Cells(after) == Kept(Cells(ps), at, |at|)
    requires View(s') == Kept(View(s), at, |at|) && s'.heap == s.heap
    ensures Agree(after, s')
  {
    hide Kept;
    AgreeAt(ps, s);
    var pos := KeptTogether(Cells(ps), View(s), at, |at|);
    assert |after| == |Cells(after)| && |s'.list| == |View(s')|;
    forall k | 0 <= k < |after| ensures s'.list[k] < |s'.heap| && RowOf(after[k]) == RowAt(s'.heap, s'.list[k]) {
      assert Cells(after)[k] == CellOf(after[k]) && Cells(ps)[pos[k]] == CellOf(ps[pos[k]]);
      assert View(s')[k].obj == s'.list[k] && View(s)[pos[k]].obj == s.list[pos[k]];
    }
  }

  /** `Ticks.CleanRepository` is a tick of the machine's cleaner: whatever clock readings it
      makes, there is a tick of single steps after which the lists still read the same. */
  method CleaningIsATick(store: InMemoryStore, r: string, clock: Clock, ghost s: State)
    returns (ghost acts: seq<Action>)
    requires store.Valid() && Agree(store.Cached(r), s)
    requires Inv(s) && s.cleaner.Resting? && s.clock <= clock.now
    modifies store, clock
    ensures store.Valid() && Unmarked(acts) && OneTick(s, acts)
    ensures Agree(store.Cached(r), Exec(s, acts))
  {
    hide InMemoryStore.Valid, Inv, Exec, Unmarked, OneTick, Agree, Kept, Cells, View;
    ghost var ps := store.Cached(r);
    AgreeAt(ps, s);
    ghost var at := CleanRepository(store, r, clock);
    acts := EveryScanIsATick(s, at);
    StillAgrees(ps, s);
    CleaningAgrees(ps, s, at, store.Cached(r), Exec(s, acts));
  }

  lemma StillAgrees(ps: seq<CachedEvent>, s: State)
    requires Agree(ps, s)
    ensures |ps| == |s.list|
  {
    AgreeAt(ps, s);
  }

  // ---------- Marking ----------

  /** The rows after a mark by ID at one instant. */
  ghost function MarkRows(rows: seq<Row>, id: string, now: Time): seq<Row> {
    seq(|rows|, i requires 0 <= i < |rows| =>
      if rows[i].data.id == id then rows[i].(relayed := true, time := now) else rows[i])
  }

  /** The inner loop of `updateRelayStatus` makes that change, at one of its readings. */
  method MarkIdMarksRows(s: Slice, ghost ps: seq<CachedEvent>, id: string, clock: Clock) returns (ghost at: Time)
    requires s.Slice? && Shows(s, ps) && DistinctIds(ps)
    modifies ps, clock
    ensures old(clock.now) <= at <= clock.now
    ensures Rows(ps) == MarkRows(old(Rows(ps)), id, at)
  {
    ghost var before := Rows(ps);
    MarkId(s, ps, id, clock);
    at := clock.now;
    if k :| 0 <= k < |ps| && ps[k].data.id == id {
      at := ps[k].timeRelayed;
    }
    assert forall k :: 0 <= k < |ps| ==> Rows(ps)[k] == MarkRows(before, id, at)[k];
  }

  /** So do the handler's two writes for one entry of its batch, with nothing between. */
  lemma MarkStepsMarkRows(s: State, k: nat)
    requires k < |s.fetchers| && Below(s.list, |s.heap|)
    requires var f := s.fetchers[k]; f.Marking? && f.snap == s.list && f.j < |f.batch| && !f.flagged
    ensures var s' := Next(Next(s, Fetch(k, true)), Fetch(k, true));
            && s'.list == s.list && Below(s.list, |s'.heap|)
            && var id := IdOf(s.heap, s.fetchers[k].batch[s.fetchers[k].j]);
               RowsAt(s'.heap, s'.list) == MarkRows(RowsAt(s.heap, s.list), id, s.clock)
  {
    var f := s.fetchers[k];
    var id := IdOf(s.heap, f.batch[f.j]);
    var flagged := FlagId(s.heap, s.list, id, s.clock);
    assert IdOf(flagged, f.batch[f.j]) == id;
    var s' := Next(Next(s, Fetch(k, true)), Fetch(k, true));
    assert s'.heap == StampId(flagged, s.list, id, s.clock);
    hide Next;
    forall i | 0 <= i < |s.list|
      ensures RowAt(s'.heap, s.list[i]) == MarkRows(RowsAt(s.heap, s.list), id, s.clock)[i]
    {
      assert s.list[i] in s.list;
    }
  }

  /** A push-relay loop's two steps for an event: the call, and the flag of that event
      only, its time left as it was. */
  lemma PushStepsRelayRow(s: State, k: nat)
    requires k < |s.pushers| && Below(s.list, |s.heap|) && Increasing(s.list)
    requires var p := s.pushers[k];
             p.Pushing? && p.snap == s.list && p.i < |p.snap| && !p.called && !Flag(s.heap, p.snap[p.i])
    ensures var s', i := Next(Next(s, Push(k)), Push(k)), s.pushers[k].i;
            && s'.list == s.list && Below(s.list, |s'.heap|) && s'.calls == s.calls + [s.list[i]]
            && RowsAt(s'.heap, s'.list) == RowsAt(s.heap, s.list)[i := RowAt(s.heap, s.list[i]).(relayed := true)]
  {
    var p := s.pushers[k];
    var s1 := Next(s, Push(k));
    assert s1.pushers[k] == Pushing(p.snap, p.i, true);
    var s' := Next(s1, Push(k));
    assert s'.heap == FlagObj(s.heap, s.list[p.i], s.clock);
    hide Next;
    forall j | 0 <= j < |s.list|
      ensures RowAt(s'.heap, s.list[j]) == if j == p.i then RowAt(s.heap, s.list[p.i]).(relayed := true)
                else RowAt(s.heap, s.list[j])
    {
      if j != p.i { assert s.list[j] != s.list[p.i]; }
    }
  }

  // ---------- Push relay ----------

  ghost function Pushes(k: nat, n: nat): seq<Action> {
    seq(n, _ => Push(k))
  }

  /** The unrelayed among the first `n`. */
  ghost function Unrelayed(heap: seq<Obj>, list: seq<nat>, n: nat): seq<nat>
    requires n <= |list|
  {
    if n == 0 then [] else Unrelayed(heap, list, n - 1) + (if Flag(heap, list[n-1]) then [] else [list[n-1]])
  }

  /** The first `i` of the list were relayed with one call each, where they had not been. */
  ghost predicate RelayedUpTo(s0: State, s: State, i: nat) {
    && i <= |s0.list| && s == s0.(heap := s.heap, pushers := s.pushers, calls := s.calls)
    && |s.heap| == |s0.heap|
    && (forall o :: 0 <= o < |s.heap| ==>
        s.heap[o] == if o in s0.list[..i] then Flagged(s0.heap[o], s0.clock) else s0.heap[o])
    && s.calls == s0.calls + Unrelayed(s0.heap, s0.list, i)
  }

  ghost predicate RelayedSoFar(s0: State, s: State, k: nat, i: nat) {
    k < |s.pushers| && s.pushers[k] == Pushing(s0.list, i, false) && RelayedUpTo(s0, s, i)
  }

  /** The rounds of the loop: one step for a relayed event, two for any other. */
  lemma PushRound(s0: State, s: State, k: nat, i: nat) returns (n: nat)
    requires RelayedSoFar(s0, s, k, i) && i < |s0.list| && Below(s0.list, |s0.heap|) && Increasing(s0.list)
    ensures RelayedSoFar(s0, Exec(s, Pushes(k, n)), k, i + 1)
  {
    hide Exec;
    var o := s0.list[i];
    NoPushes(s, k);
    PushesSnoc(s, k, 0);
    NotYetIn(s0.list, i);
    assert s0.list[..i+1] == s0.list[..i] + [o];
    if Flag(s0.heap, o) {
      n := 1;
    } else {
      PushesSnoc(s, k, 1);
      n := 2;
      var t := Next(s, Push(k));
      assert t.pushers[k] == Pushing(s0.list, i, true);
    }
  }

  lemma NotYetIn(list: seq<nat>, i: nat)
    requires Increasing(list) && i < |list|
    ensures list[i] !in list[..i]
  {}

  lemma NoPushes(s: State, k: nat)
    ensures Exec(s, Pushes(k, 0)) == s
  {
    assert Pushes(k, 0) == [];
  }

  lemma PushesSnoc(s: State, k: nat, n: nat)
    ensures Exec(s, Pushes(k, n + 1)) == Next(Exec(s, Pushes(k, n)), Push(k))
  {
    assert Pushes(k, n + 1)[..n] == Pushes(k, n);
  }

  lemma PushesAppend(s: State, k: nat, m: nat, n: nat)
    ensures Exec(s, Pushes(k, m + n)) == Exec(Exec(s, Pushes(k, m)), Pushes(k, n))
  {
    ExecAppend(s, Pushes(k, m), Pushes(k, n));
    assert Pushes(k, m + n) == Pushes(k, m) + Pushes(k, n);
  }

  lemma PushBegins(s: State, k: nat)
    requires k < |s.pushers| && s.pushers[k].Asleep?
    ensures RelayedSoFar(s, Next(s, Push(k)), k, 0)
  {
    assert s.calls + Unrelayed(s.heap, s.list, 0) == s.calls;
  }

  lemma {:induction false} PushUpTo(s: State, k: nat, i: nat) returns (n: nat)
    requires k < |s.pushers| && s.pushers[k].Asleep? && i <= |s.list| && Below(s.list, |s.heap|) && Increasing(s.list)
    ensures RelayedSoFar(s, Exec(s, Pushes(k, n)), k, i)
  {
    hide Exec, RelayedSoFar, Below, Increasing, Pushes;
    if i == 0 {
      n := 1;
      NoPushes(s, k);
      PushesSnoc(s, k, 0);
      PushBegins(s, k);
    } else {
      n := PushUpTo(s, k, i - 1);
      var more := PushRound(s, Exec(s, Pushes(k, n)), k, i - 1);
      PushesAppend(s, k, n, more);
      n := n + more;
    }
  }

  /** A whole tick of a push-relay loop, with no other goroutine in between. */
  lemma {:induction false} PushTick(s: State, k: nat) returns (n: nat)
    requires k < |s.pushers| && s.pushers[k].Asleep? && Below(s.list, |s.heap|) && Increasing(s.list)
    ensures var s' := Exec(s, Pushes(k, n));
            RelayedUpTo(s, s', |s.list|) && k < |s'.pushers| && s'.pushers[k].Asleep?
  {
    hide Exec, Below, Increasing, Pushes, Unrelayed;
    n := PushUpTo(s, k, |s.list|);
    PushesSnoc(s, k, n);
    n := n + 1;
  }

  lemma {:induction false} PendingAgrees(ps: seq<CachedEvent>, s: State, n: nat)
    requires Agree(ps, s) && n <= |ps|
    ensures n <= |s.list|
    ensures |Pending(ps[..n])| == |Unrelayed(s.heap, s.list, n)|
    ensures forall h :: 0 <= h < |Pending(ps[..n])| ==>
              var o := Unrelayed(s.heap, s.list, n)[h]; o < |s.heap| && Pending(ps[..n])[h].data == s.heap[o].data
  {
    hide Agree;
    AgreeAt(ps, s);
    if n == 0 {
    } else {
      PendingAgrees(ps, s, n - 1);
      assert ps[..n][..n-1] == ps[..n-1];
    }
  }

  /** The list after the tick: everything in it relayed, times as they were. */
  lemma RelayedAgrees(before: seq<Row>, ps: seq<CachedEvent>, s: State, s': State)
    requires Below(s.list, |s.heap|) && before == RowsAt(s.heap, s.list) && RelayedUpTo(s, s', |s.list|)
    requires |ps| == |before|
    requires forall i :: 0 <= i < |ps| ==> RowOf(ps[i]) == before[i].(relayed := true)
    ensures Agree(ps, s')
  {
    forall i | 0 <= i < |ps| ensures RowOf(ps[i]) == RowAt(s'.heap, s.list[i]) {
      assert s.list[i] in s.list[..|s.list|];
    }
  }

  /** `Ticks.RelayTick` is a tick of a push-relay loop in the machine: it ends with lists
      that read the same, and makes the same calls in the same order. */
  method RelayIsAPushTick(store: InMemoryStore, r: string, ghost s: State, ghost k: nat)
    returns (calls: seq<CachedEvent>, ghost n: nat)
    requires store.Valid() && Agree(store.Cached(r), s) && Inv(s) && k < |s.pushers| && s.pushers[k].Asleep?
    modifies store`handed, store`arrays, store`owner, store.Cached(r)
    ensures store.Valid() && Agree(store.Cached(r), Exec(s, Pushes(k, n)))
    ensures var s' := Exec(s, Pushes(k, n)); k < |s'.pushers| && s'.pushers[k].Asleep?
    ensures var made := Exec(s, Pushes(k, n)).calls;
            && |made| == |s.calls| + |calls| && made[..|s.calls|] == s.calls
            && forall h :: 0 <= h < |calls| ==>
                 made[|s.calls| + h] < |s.heap| && calls[h].data == s.heap[made[|s.calls| + h]].data
  {
    hide InMemoryStore.Valid, Pending, Exec, Inv, Unrelayed, Pushes, Agree, Rows, RelayedUpTo, Below, Increasing;
    ghost var ps, before := store.Cached(r), Rows(store.Cached(r));
    ListIncreases(s);
    RowsAgree(ps, s);
    PendingAgrees(ps, s, |ps|);
    assert ps[..|ps|] == ps;
    calls := RelayTick(store, r);
    n := PushTick(s, k);
    AllRelayedRows(ps, before);
    RelayedAgrees(before, ps, s, Exec(s, Pushes(k, n)));
    CallsMade(s, Exec(s, Pushes(k, n)));
  }

  lemma RowsAgree(ps: seq<CachedEvent>, s: State)
    requires Agree(ps, s)
    ensures Below(s.list, |s.heap|) && Rows(ps) == RowsAt(s.heap, s.list) && |ps| == |s.list| == |Rows(ps)|
    ensures forall i :: 0 <= i < |ps| ==> Rows(ps)[i] == RowOf(ps[i])
  {
    AgreeAt(ps, s);
  }

  lemma AllRelayedRows(ps: seq<CachedEvent>, before: seq<Row>)
    requires |before| == |ps| && forall e :: e in ps ==> e.isRelayed
    requires forall i :: 0 <= i < |ps| ==> before[i].data == ps[i].data && before[i].time == ps[i].timeRelayed
    ensures forall i :: 0 <= i < |ps| ==> RowOf(ps[i]) == before[i].(relayed := true)
  {
    forall i | 0 <= i < |ps| ensures RowOf(ps[i]) == before[i].(relayed := true) { assert ps[i] in ps; }
  }

  lemma CallsMade(s: State, s': State)
    requires RelayedUpTo(s, s', |s.list|)
    ensures s'.calls == s.calls + Unrelayed(s.heap, s.list, |s.list|)
  {}
}

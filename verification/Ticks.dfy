/** The loops that read and mark the shared cached events, one tick at a time and with no
    other goroutine in between. Interleavings are the subject of `Protocol`. */
module Ticks {
  import opened Events
  import opened Codec
  import opened CacheSpec
  import opened EventStore
  import opened Repositories

  datatype Outcome<T> = Ok(value: T) | Error

  ghost predicate InBatch(batch: seq<Message>, id: string) {
    exists i :: 0 <= i < |batch| && batch[i].eventId == id
  }

  /** The events not relayed yet, in order. */
  ghost function Pending(ps: seq<CachedEvent>): seq<CachedEvent>
    reads ps
  {
    if ps == [] then []
    else Pending(ps[..|ps|-1]) + (if ps[|ps|-1].isRelayed then [] else [ps[|ps|-1]])
  }

  ghost function Encoded(ps: seq<CachedEvent>): seq<Message> {
    seq(|ps|, i requires 0 <= i < |ps| => Encode(ps[i].data))
  }

  ghost function Datas(ps: seq<CachedEvent>): seq<EventData> {
    seq(|ps|, i requires 0 <= i < |ps| => ps[i].data)
  }

  ghost function Decoded(ms: seq<Message>): seq<EventData>
    requires forall i :: 0 <= i < |ms| ==> NoNil(ms[i])
  {
    seq(|ms|, i requires 0 <= i < |ms| => Decode(ms[i]))
  }

  /** The reference reading of `Pending`: the events at exactly the positions where the flag
      is not set, in the order of the positions. */
  lemma {:induction false} PendingIsFilter(ps: seq<CachedEvent>) returns (pos: seq<nat>)
    ensures |pos| == |Pending(ps)| && Ascending(pos)
    ensures forall k :: 0 <= k < |pos| ==> pos[k] < |ps| && !ps[pos[k]].isRelayed && Pending(ps)[k] == ps[pos[k]]
    ensures forall i :: 0 <= i < |ps| && !ps[i].isRelayed ==> i in pos
  {
    if ps == [] {
      pos := [];
    } else {
      var n := |ps| - 1;
      pos := PendingIsFilter(ps[..n]);
      if !ps[n].isRelayed { pos := pos + [n]; }
    }
  }

  /** What a batch carries, message by message: the event's ID and body, and, for who
      decodes it at the other end of the wire, its body, its significant headers and the ID
      they carry. */
  lemma EncodedCarries(ps: seq<CachedEvent>)
    ensures |Encoded(ps)| == |ps|
    ensures forall k :: 0 <= k < |ps| ==>
              Encoded(ps)[k].eventId == ps[k].data.id && Encoded(ps)[k].body == ps[k].data.body
    ensures forall k :: 0 <= k < |ps| ==>
              var e := Decode(Wire(Encoded(ps)[k]));
              && e.body == ps[k].data.body && e.headers == NonEmpty(ps[k].data.headers)
              && e.id == DeliveryId(ps[k].data.headers)
  {
    forall k | 0 <= k < |ps|
      ensures var e := Decode(Wire(Encoded(ps)[k]));
              && e.body == ps[k].data.body && e.headers == NonEmpty(ps[k].data.headers)
              && e.id == DeliveryId(ps[k].data.headers)
    {
      assert Encoded(ps)[k] == Encode(ps[k].data);
      HopIsLossless(ps[k].data);
    }
  }

  // ---------- Server: fetch ----------

  /** The loop of `retrieveCachedEventsForRepository`. */
  method EncodePending(s: Slice, ghost ps: seq<CachedEvent>) returns (batch: seq<Message>)
    requires s.Slice? && Shows(s, ps)
    ensures batch == Encoded(Pending(ps))
  {
    batch := [];
    for i := 0 to s.len
      invariant batch == Encoded(Pending(ps[..i]))
    {
      assert ps[..i+1][..i] == ps[..i];
      assert s.data[i] == ps[i];
      if !s.data[i].isRelayed {
        var m := InternalToExternalEvent(s.data[i].data);
        batch := batch + [m];
      }
    }
    assert ps[..s.len] == ps;
  }

  /** `retrieveCachedEventsForRepository`. */
  method RetrieveForFetch(watcher: RepositoryWatcher, store: InMemoryStore, r: string)
    returns (res: Outcome<seq<Message>>)
    requires store.Valid()
    modifies store`handed, store`arrays, store`owner
    ensures store.Valid() && fresh(store.arrays - old(store.arrays))
    ensures res == if r in watcher.repositories then Ok(Encoded(Pending(store.Cached(r)))) else Error
    ensures res.Ok? ==> |res.value| == |Pending(store.Cached(r))|
    ensures res.Ok? ==> forall k :: 0 <= k < |res.value| ==>
              var e := Pending(store.Cached(r))[k].data;
              && res.value[k].eventId == e.id && res.value[k].body == e.body
              && Decode(Wire(res.value[k])).body == e.body && Decode(Wire(res.value[k])).headers == NonEmpty(e.headers)
              && Decode(Wire(res.value[k])).id == DeliveryId(e.headers)
  {
    hide InMemoryStore.Valid, Encoded, Pending, Decode, Wire, NonEmpty, DeliveryId;
    var watched := watcher.RepositoryIsWatched(r);
    if !watched {
      return Error;
    }
    var s := store.RetrieveEventsForRepository(r);
    var batch := EncodePending(s, store.Cached(r));
    EncodedCarries(Pending(store.Cached(r)));
    res := Ok(batch);
  }

  ghost predicate MarkedFor(batch: seq<Message>, e: CachedEvent, wasRelayed: bool, wasTime: Time, start: Time,
                            now: Time)
    reads e
  {
    if InBatch(batch, e.data.id) then e.isRelayed && start <= e.timeRelayed <= now
    else e.isRelayed == wasRelayed && e.timeRelayed == wasTime
  }

  /** The inner loop: the cached event with this ID, if there is one, is marked. */
  method MarkId(s: Slice, ghost ps: seq<CachedEvent>, id: string, clock: Clock)
    requires s.Slice? && Shows(s, ps) && DistinctIds(ps)
    modifies ps, clock
    ensures clock.now >= old(clock.now)
    ensures forall k :: 0 <= k < |ps| ==>
              if ps[k].data.id == id then ps[k].isRelayed && old(clock.now) <= ps[k].timeRelayed <= clock.now
              else ps[k].isRelayed == old(ps[k].isRelayed) && ps[k].timeRelayed == old(ps[k].timeRelayed)
  {
    for j := 0 to s.len
      invariant clock.now >= old(clock.now)
      invariant forall k :: 0 <= k < j && ps[k].data.id == id ==>
                  ps[k].isRelayed && old(clock.now) <= ps[k].timeRelayed <= clock.now
      invariant forall k :: 0 <= k < |ps| && (k >= j || ps[k].data.id != id) ==>
                  ps[k].isRelayed == old(ps[k].isRelayed) && ps[k].timeRelayed == old(ps[k].timeRelayed)
    {
      assert s.data[j] == ps[j];
      if s.data[j].data.id == id {
        s.data[j].isRelayed := true;
        var now := clock.Now();
        s.data[j].timeRelayed := now;
      }
    }
  }

  /** The nested loop of `updateRelayStatus` is one update of the set of cached events
      whose ID is in the batch. */
  method MarkBatch(s: Slice, ghost ps: seq<CachedEvent>, batch: seq<Message>, clock: Clock)
    requires s.Slice? && Shows(s, ps) && DistinctIds(ps)
    modifies ps, clock
    ensures clock.now >= old(clock.now)
    ensures forall k :: 0 <= k < |ps| ==>
              MarkedFor(batch, ps[k], old(ps[k].isRelayed), old(ps[k].timeRelayed), old(clock.now), clock.now)
  {
    for i := 0 to |batch|
      invariant clock.now >= old(clock.now)
      invariant forall k :: 0 <= k < |ps| ==>
                  MarkedFor(batch[..i], ps[k], old(ps[k].isRelayed), old(ps[k].timeRelayed), old(clock.now), clock.now)
    {
      forall k | 0 <= k < |ps|
        ensures InBatch(batch[..i+1], ps[k].data.id) <==>
                  InBatch(batch[..i], ps[k].data.id) || ps[k].data.id == batch[i].eventId
      {
        InBatchSnoc(batch, i, ps[k].data.id);
      }
      MarkId(s, ps, batch[i].eventId, clock);
    }
    assert batch[..|batch|] == batch;
  }

  /** `updateRelayStatus`: it marks exactly the cached events whose ID is in the batch,
      at this call's clock readings, and leaves every other event and the list itself alone. */
  method UpdateRelayStatus(store: InMemoryStore, batch: seq<Message>, r: string, clock: Clock)
    requires store.Valid()
    modifies store`handed, store`arrays, store`owner, clock, store.Cached(r)
    ensures store.Valid() && fresh(store.arrays - old(store.arrays)) && clock.now >= old(clock.now)
    ensures forall e :: e in store.Cached(r) ==>
              MarkedFor(batch, e, old(e.isRelayed), old(e.timeRelayed), old(clock.now), clock.now)
  {
    hide DistinctIds;
    ghost var ps := store.Cached(r);
    store.CachedIdsDiffer(r);
    var s := store.RetrieveEventsForRepository(r);
    MarkBatch(s, ps, batch, clock);
    assert forall e :: e in ps ==> exists k :: 0 <= k < |ps| && ps[k] == e;
  }

  lemma InBatchSnoc(batch: seq<Message>, i: nat, id: string)
    requires i < |batch|
    ensures InBatch(batch[..i+1], id) <==> InBatch(batch[..i], id) || id == batch[i].eventId
  {
    assert forall k :: 0 <= k < i ==> batch[..i+1][k] == batch[..i][k];
    assert batch[..i+1][i] == batch[i];
  }

  // ---------- Server: cleaner ----------

  /** One step of the cleaner's scan: the clock is read only for a relayed event. */
  method TestAndRemove(store: InMemoryStore, r: string, e: CachedEvent, clock: Clock)
    requires store.Valid()
    modifies store, clock
    ensures store.Valid() && fresh(store.arrays - old(store.arrays)) && clock.now >= old(clock.now)
    ensures store.Cached(r) ==
            if Due(CellOf(e), clock.now) then Others(old(store.Cached(r)), e.data.id) else old(store.Cached(r))
    ensures Due(CellOf(e), clock.now) <==> e.isRelayed && clock.now > e.timeRelayed + 120_000_000_000
    ensures SameElsewhere(old(store.contents), store.contents, r)
  {
    var relayTime := e.timeRelayed + RETENTION;
    if e.isRelayed {
      var now := clock.Now();
      if now > relayTime {
        var _ := store.Remove(r, e.data.id);
      }
    }
  }

  /** The cleaner's visit to one repository: testing and removing one event at a time, by
      ID, comes to one filter of the snapshot. */
  method CleanRepository(store: InMemoryStore, r: string, clock: Clock) returns (ghost at: seq<Time>)
    requires store.Valid()
    modifies store, clock
    ensures store.Valid() && fresh(store.arrays - old(store.arrays)) && clock.now >= old(clock.now)
    ensures |at| == |old(store.Cached(r))| && NonDecreasing(at)
    ensures forall i :: 0 <= i < |at| ==> old(clock.now) <= at[i] <= clock.now
    ensures Cells(store.Cached(r)) == Kept(Cells(old(store.Cached(r))), at, |at|)
    ensures SameElsewhere(old(store.contents), store.contents, r)
  {
    hide InMemoryStore.Valid, SameElsewhere, DistinctIds, Others, Scanned, CellOf, Due;
    ghost var ps := store.Cached(r);
    store.CachedIdsDiffer(r);
    SameElsewhereTransitive(store.contents, store.contents, store.contents, r);
    var s := store.RetrieveEventsForRepository(r);
    at := [];
    ScannedEnds(ps, at);
    for i := 0 to s.len
      invariant Shows(s, ps)
      invariant store.Valid() && fresh(store.arrays - old(store.arrays)) && clock.now >= old(clock.now)
      invariant |at| == i && NonDecreasing(at)
      invariant forall k :: 0 <= k < i ==> old(clock.now) <= at[k] <= clock.now
      invariant store.Cached(r) == Scanned(ps, at)
      invariant SameElsewhere(old(store.contents), store.contents, r)
    {
      assert s.data[i] == ps[i];
      ghost var before := store.contents;
      TestAndRemove(store, r, s.data[i], clock);
      SameElsewhereTransitive(old(store.contents), before, store.contents, r);
      ScanStep(ps, at, clock.now);
      at := at + [clock.now];
    }
    ScannedEnds(ps, at);
  }

  ghost function Objects(cs: seq<Cell<CachedEvent>>): seq<CachedEvent> {
    seq(|cs|, i requires 0 <= i < |cs| => cs[i].obj)
  }

  /** What the list is when the cleaner has tested the first `|at|` events of its snapshot. */
  ghost function Scanned(ps: seq<CachedEvent>, at: seq<Time>): seq<CachedEvent>
    reads ps
    requires |at| <= |ps|
  {
    Objects(Kept(Cells(ps), at, |at|)) + ps[|at|..]
  }

  lemma KeptCameFrom(ps: seq<CachedEvent>, at: seq<Time>)
    requires |at| <= |ps|
    ensures forall k :: 0 <= k < |Kept(Cells(ps), at, |at|)| ==>
              exists i :: 0 <= i < |at| && Kept(Cells(ps), at, |at|)[k] == CellOf(ps[i])
  {
    KeptMembers(Cells(ps), at, |at|);
    var kept := Kept(Cells(ps), at, |at|);
    forall k | 0 <= k < |kept| ensures exists i :: 0 <= i < |at| && kept[k] == CellOf(ps[i]) {
      var i :| 0 <= i < |at| && kept[k] == Cells(ps)[i];
      assert kept[k] == CellOf(ps[i]);
    }
  }

  lemma ScannedEnds(ps: seq<CachedEvent>, at: seq<Time>)
    requires |at| <= |ps|
    ensures at == [] ==> Scanned(ps, at) == ps
    ensures |at| == |ps| ==> Cells(Scanned(ps, at)) == Kept(Cells(ps), at, |at|)
  {
    if |at| == |ps| {
      var kept := Kept(Cells(ps), at, |at|);
      KeptCameFrom(ps, at);
      forall k | 0 <= k < |kept| ensures CellOf(kept[k].obj) == kept[k] {
        var i :| 0 <= i < |at| && kept[k] == CellOf(ps[i]);
      }
    }
  }

  /** Removing by ID in mid-scan takes out the event under test and nothing else. */
  lemma ScanStep(ps: seq<CachedEvent>, at: seq<Time>, now: Time)
    requires |at| < |ps| && DistinctIds(ps)
    ensures Scanned(ps, at + [now]) ==
            if Due(CellOf(ps[|at|]), now) then Others(Scanned(ps, at), ps[|at|].data.id) else Scanned(ps, at)
  {
    hide DistinctIds, Kept, Others, Objects;
    var i, kept := |at|, Kept(Cells(ps), at, |at|);
    KeptSnoc(Cells(ps), at, now);
    ObjectsAppend(kept, CellOf(ps[i]));
    assert ps[i..] == [ps[i]] + ps[i+1..];
    if Due(CellOf(ps[i]), now) {
      ScannedDistinct(ps, at);
      RemoveMiddle(Objects(kept), ps[i], ps[i+1..]);
      assert kept + [] == kept;
    } else {
      assert Objects(kept) + ps[i..] == Objects(kept) + [ps[i]] + ps[i+1..];
    }
  }

  lemma ObjectsAppend(cs: seq<Cell<CachedEvent>>, c: Cell<CachedEvent>)
    ensures Objects(cs + [c]) == Objects(cs) + [c.obj]
  {}

  lemma MiddleSlices(a: seq<CachedEvent>, e: CachedEvent, b: seq<CachedEvent>)
    ensures var live := a + ([e] + b); live[|a|] == e && live[..|a|] == a && live[|a|+1..|live|] == b
  {}

  lemma RemoveMiddle(a: seq<CachedEvent>, e: CachedEvent, b: seq<CachedEvent>)
    requires DistinctIds(a + ([e] + b))
    ensures Others(a + ([e] + b), e.data.id) == a + b
  {
    hide DistinctIds;
    var live := a + ([e] + b);
    MiddleSlices(a, e, b);
    OthersAt(live, |a|, |live|);
  }

  lemma ScannedDistinct(ps: seq<CachedEvent>, at: seq<Time>)
    requires |at| < |ps| && DistinctIds(ps)
    ensures DistinctIds(Scanned(ps, at))
  {
    KeptDistinct(Cells(ps), at, |at|);
    KeptCameFrom(ps, at);
    var i, kept, live := |at|, Kept(Cells(ps), at, |at|), Scanned(ps, at);
    forall j | 0 <= j < |kept|
      ensures live[j].data.id == kept[j].id && exists h :: 0 <= h < i && ps[h].data.id == kept[j].id
    {
      var h :| 0 <= h < i && kept[j] == CellOf(ps[h]);
    }
  }

  /** What one or more visits of the cleaner between two instants leave of some cells:
      one order-preserving filter, at clock readings between those instants. */
  ghost predicate Swept(before: seq<Cell<CachedEvent>>, after: seq<Cell<CachedEvent>>, start: Time, now: Time) {
    exists at: seq<Time> :: SweptAt(before, after, at, start, now)
  }

  ghost predicate SweptAt(before: seq<Cell<CachedEvent>>, after: seq<Cell<CachedEvent>>, at: seq<Time>, start: Time,
                          now: Time) {
    |at| == |before| && Within(at, start, now) && after == Kept(before, at, |before|)
  }

  /** So nothing is new, nothing that was due at the start is left, and nothing is gone
      that was not due at the end: in particular nothing unrelayed, and nothing relayed
      less than two minutes before. */
  lemma {:induction false} SweptMeans(before: seq<Cell<CachedEvent>>, after: seq<Cell<CachedEvent>>, start: Time,
                                      now: Time)
    requires Swept(before, after, start, now)
    ensures forall c :: c in after ==> c in before && !(c.relayed && start > c.time + 120_000_000_000)
    ensures forall c :: c in before && !(c.relayed && now > c.time + 120_000_000_000) ==> c in after
  {
    var at: seq<Time> :| SweptAt(before, after, at, start, now);
    KeptMembers(before, at, |before|);
    forall c | c in after ensures c in before && !Due(c, start) {
      var k :| 0 <= k < |after| && after[k] == c;
      var i :| 0 <= i < |before| && after[k] == before[i] && !Due(before[i], at[i]);
    }
    forall c | c in before && !Due(c, now) ensures c in after {
      var i :| 0 <= i < |before| && before[i] == c;
      assert !Due(before[i], at[i]);
    }
  }

  lemma {:induction false} SweptLater(before: seq<Cell<CachedEvent>>, after: seq<Cell<CachedEvent>>, start: Time,
                                      now: Time, later: Time)
    requires Swept(before, after, start, now) && now <= later
    ensures Swept(before, after, start, later)
  {
    var at: seq<Time> :| SweptAt(before, after, at, start, now);
    assert SweptAt(before, after, at, start, later);
  }

  lemma {:induction false} SweptTwice(before: seq<Cell<CachedEvent>>, mid: seq<Cell<CachedEvent>>,
                                      after: seq<Cell<CachedEvent>>, start: Time, between: Time, now: Time)
    requires Swept(before, mid, start, between) && Swept(mid, after, between, now) && start <= between <= now
    ensures Swept(before, after, start, now)
  {
    var a: seq<Time> :| SweptAt(before, mid, a, start, between);
    var b: seq<Time> :| SweptAt(mid, after, b, between, now);
    var c := KeptTwice(before, a, b, start, now);
    assert SweptAt(before, after, c, start, now);
  }

  /** The cleaner's visit to one repository, as its tick counts on it. */
  method SweepRepository(store: InMemoryStore, r: string, clock: Clock)
    requires store.Valid()
    modifies store, clock
    ensures store.Valid() && fresh(store.arrays - old(store.arrays)) && clock.now >= old(clock.now)
    ensures Swept(old(Cells(store.Cached(r))), Cells(store.Cached(r)), old(clock.now), clock.now)
    ensures forall q :: q != r ==>
              store.Cached(q) == old(store.Cached(q)) && Cells(store.Cached(q)) == old(Cells(store.Cached(q)))
  {
    hide InMemoryStore.Valid, Kept, Cells;
    ghost var before := Cells(store.Cached(r));
    ghost var at := CleanRepository(store, r, clock);
    assert SweptAt(before, Cells(store.Cached(r)), at, old(clock.now), clock.now);
  }

  /** One tick of `CleanupRelayedEvents`: every watched repository is filtered once, in
      order, at clock readings of this tick; every other repository is left alone. */
  method CleanupTick(watcher: RepositoryWatcher, store: InMemoryStore, clock: Clock)
    requires store.Valid()
    modifies store, clock
    ensures store.Valid() && fresh(store.arrays - old(store.arrays)) && clock.now >= old(clock.now)
    ensures forall q :: q in watcher.repositories ==>
              Swept(old(Cells(store.Cached(q))), Cells(store.Cached(q)), old(clock.now), clock.now)
    ensures forall q :: q !in watcher.repositories ==> store.Cached(q) == old(store.Cached(q))
  {
    hide InMemoryStore.Valid, InMemoryStore.Cached, Swept, Cells;
    var repoIds := watcher.repositories;
    for i := 0 to |repoIds|
      invariant store.Valid() && fresh(store.arrays - old(store.arrays)) && clock.now >= old(clock.now)
      invariant forall q :: q in repoIds[..i] ==>
                  Swept(old(Cells(store.Cached(q))), Cells(store.Cached(q)), old(clock.now), clock.now)
      invariant forall q :: q !in repoIds[..i] ==>
                  store.Cached(q) == old(store.Cached(q)) && Cells(store.Cached(q)) == old(Cells(store.Cached(q)))
    {
      var r := repoIds[i];
      ghost var mid, between := Cells(store.Cached(r)), clock.now;
      SweepRepository(store, r, clock);
      forall q | q in repoIds[..i+1]
        ensures Swept(old(Cells(store.Cached(q))), Cells(store.Cached(q)), old(clock.now), clock.now)
      {
        if q != r {
          assert q in repoIds[..i];
          SweptLater(old(Cells(store.Cached(q))), Cells(store.Cached(q)), old(clock.now), between, clock.now);
        } else if r in repoIds[..i] {
          SweptTwice(old(Cells(store.Cached(r))), mid, Cells(store.Cached(r)), old(clock.now), between, clock.now);
        } else {
          SweptSooner(mid, Cells(store.Cached(r)), old(clock.now), between, clock.now);
        }
      }
      assert repoIds[..i+1] == repoIds[..i] + [r];
    }
    assert repoIds[..|repoIds|] == repoIds;
  }

  lemma {:induction false} SweptSooner(before: seq<Cell<CachedEvent>>, after: seq<Cell<CachedEvent>>, sooner: Time,
                                       start: Time, now: Time)
    requires Swept(before, after, start, now) && sooner <= start
    ensures Swept(before, after, sooner, now)
  {
    var at: seq<Time> :| SweptAt(before, after, at, start, now);
    assert SweptAt(before, after, at, sooner, now);
  }

  // ---------- Push relay ----------

  /** One tick of `RelayCachedEvents`: every pending event is relayed once, in order, and
      marked whatever became of the call. Its time is left as it was. */
  method RelayTick(store: InMemoryStore, r: string) returns (calls: seq<CachedEvent>)
    requires store.Valid()
    modifies store`handed, store`arrays, store`owner, store.Cached(r)
    ensures store.Valid() && fresh(store.arrays - old(store.arrays))
    ensures calls == old(Pending(store.Cached(r)))
    ensures forall e :: e in store.Cached(r) ==> e.isRelayed && e.timeRelayed == old(e.timeRelayed)
  {
    hide InMemoryStore.Valid, DistinctIds, Pending;
    ghost var ps := store.Cached(r);
    store.CachedIdsDiffer(r);
    var s := store.RetrieveEventsForRepository(r);
    calls := RelayAll(s, ps);
    assert forall e :: e in ps ==> exists k :: 0 <= k < |ps| && ps[k] == e;
  }

  method RelayAll(s: Slice, ghost ps: seq<CachedEvent>) returns (calls: seq<CachedEvent>)
    requires s.Slice? && Shows(s, ps) && DistinctIds(ps)
    modifies ps
    ensures calls == old(Pending(ps))
    ensures forall k :: 0 <= k < |ps| ==> ps[k].isRelayed && ps[k].timeRelayed == old(ps[k].timeRelayed)
  {
    calls := [];
    for i := 0 to s.len
      invariant calls == old(Pending(ps[..i]))
      invariant forall k :: 0 <= k < i ==> ps[k].isRelayed
      invariant forall k :: i <= k < |ps| ==> ps[k].isRelayed == old(ps[k].isRelayed)
      invariant forall k :: 0 <= k < |ps| ==> ps[k].timeRelayed == old(ps[k].timeRelayed)
    {
      assert ps[..i+1][..i] == ps[..i];
      assert s.data[i] == ps[i];
      var event := s.data[i];
      if !event.isRelayed {
        calls := calls + [event];
        event.isRelayed := true;
      }
    }
    assert ps[..s.len] == ps;
  }

  // ---------- Ingress of messages ----------

  /** `cache.Event`: decode and store; whether it was stored is not reported. */
  method CacheEvent(store: InMemoryStore, r: string, m: Message)
    requires store.Valid() && NoNil(m)
    modifies store, store.arrays
    ensures store.Valid() && fresh(store.arrays - old(store.arrays)) && store.handed == old(store.handed)
    ensures Datas(store.Cached(r)) == AddAll(Datas(old(store.Cached(r))), [Decode(m)])
    ensures |store.Cached(r)| > |old(store.Cached(r))| ==>
              var e := store.Cached(r)[|store.Cached(r)| - 1]; fresh(e) && !e.isRelayed && e.timeRelayed == ZERO_TIME
    ensures HoldsId(store.Cached(r), DeliveryId(Received(m)))
    ensures store.Cached(r) == old(store.Cached(r)) ||
            (|store.Cached(r)| == |old(store.Cached(r))| + 1 && old(store.Cached(r)) <= store.Cached(r)
             && store.Cached(r)[|old(store.Cached(r))|].data == Decode(m)
             && store.Cached(r)[|old(store.Cached(r))|].data.body == m.body)
    ensures SameElsewhere(old(store.contents), store.contents, r)
  {
    hide InMemoryStore.Valid, AddAll, HasEvent, Datas, NonEmpty, DeliveryId;
    ghost var before := store.Cached(r);
    var data := ExternalToInternalEvent(m);
    var e := new CachedEvent(data);
    StoreIsAdd(before, e);
    LastHeld(before, e);
    var stored := store.Store(r, e);
  }

  lemma LastHeld(ps: seq<CachedEvent>, e: CachedEvent)
    ensures HoldsId(ps + [e], e.data.id)
  {
    assert (ps + [e])[|ps|] == e;
  }

  lemma StoreIsAdd(ps: seq<CachedEvent>, e: CachedEvent)
    ensures HoldsId(ps, e.data.id) <==> HasEvent(Datas(ps), e.data.id)
    ensures AddAll(Datas(ps), [e.data]) == Datas(if HoldsId(ps, e.data.id) then ps else ps + [e])
  {
    AddOne(Datas(ps), e.data);
    assert forall i :: 0 <= i < |ps| ==> Datas(ps)[i].id == ps[i].data.id;
    assert Datas(ps + [e]) == Datas(ps) + [e.data];
  }

  lemma AddOne(held: seq<EventData>, e: EventData)
    ensures AddAll(held, [e]) == if HasEvent(held, e.id) then held else held + [e]
  {
    assert [e][..0] == [];
  }

  ghost predicate AllNoNil(batch: seq<Message>) {
    forall i :: 0 <= i < |batch| ==> NoNil(batch[i])
  }

  ghost predicate OneOf(e: EventData, batch: seq<Message>, n: nat)
    requires n <= |batch| && AllNoNil(batch)
  {
    exists i :: 0 <= i < n && e == Decode(batch[i])
  }

  /** From position `from` on, the list holds decoded messages of the first `n`. */
  ghost predicate CameFrom(ps: seq<CachedEvent>, from: nat, batch: seq<Message>, n: nat)
    requires n <= |batch| && AllNoNil(batch)
  {
    forall p :: from <= p < |ps| ==> OneOf(ps[p].data, batch, n)
  }

  lemma NoneCameFrom(ps: seq<CachedEvent>, batch: seq<Message>)
    requires AllNoNil(batch)
    ensures CameFrom(ps, |ps|, batch, 0)
  {}

  lemma OneOfMeans(e: EventData, batch: seq<Message>)
    requires AllNoNil(batch) && OneOf(e, batch, |batch|)
    ensures exists m :: m in batch && NoNil(m) && e == Decode(m) && e.body == m.body
  {
    var i :| 0 <= i < |batch| && e == Decode(batch[i]);
    assert batch[i] in batch && Decode(batch[i]).body == batch[i].body;
  }

  lemma CameFromMeans(before: seq<CachedEvent>, ps: seq<CachedEvent>, batch: seq<Message>)
    requires AllNoNil(batch) && before <= ps && CameFrom(ps, |before|, batch, |batch|)
    ensures forall e :: e in ps ==>
              e in before || exists m :: m in batch && NoNil(m) && e.data == Decode(m) && e.data.body == m.body
  {
    forall e | e in ps && e !in before
      ensures exists m :: m in batch && NoNil(m) && e.data == Decode(m) && e.data.body == m.body
    {
      var p :| 0 <= p < |ps| && ps[p] == e;
      assert forall q :: 0 <= q < |before| ==> ps[q] == before[q];
      assert OneOf(ps[p].data, batch, |batch|);
      OneOfMeans(e.data, batch);
    }
  }

  lemma StillFrom(ps: seq<CachedEvent>, longer: seq<CachedEvent>, from: nat, batch: seq<Message>, n: nat)
    requires n < |batch| && AllNoNil(batch) && CameFrom(ps, from, batch, n)
    requires longer == ps || (|longer| == |ps| + 1 && ps <= longer && longer[|ps|].data == Decode(batch[n]))
    ensures CameFrom(longer, from, batch, n + 1)
  {
    hide Decode;
    forall p | from <= p < |longer| ensures OneOf(longer[p].data, batch, n + 1) {
      if p < |ps| {
        assert longer[p] == ps[p] && OneOf(ps[p].data, batch, n);
      }
    }
  }

  lemma StillHeld(ps: seq<CachedEvent>, longer: seq<CachedEvent>)
    requires ps <= longer
    ensures forall id :: HoldsId(ps, id) ==> HoldsId(longer, id)
  {
    forall id | HoldsId(ps, id) ensures HoldsId(longer, id) {
      var i :| 0 <= i < |ps| && ps[i].data.id == id;
      assert longer[i] == ps[i];
    }
  }

  lemma AddNone(held: seq<EventData>)
    ensures AddAll(held, []) == held
  {}

  /** The client's loop over one response. */
  method StoreBatch(store: InMemoryStore, r: string, batch: seq<Message>)
    requires store.Valid() && forall i :: 0 <= i < |batch| ==> NoNil(batch[i])
    modifies store, store.arrays
    ensures store.Valid() && fresh(store.arrays - old(store.arrays)) && store.handed == old(store.handed)
    ensures Datas(store.Cached(r)) == AddAll(Datas(old(store.Cached(r))), Decoded(batch))
    ensures old(store.Cached(r)) <= store.Cached(r)
    ensures forall i :: 0 <= i < |batch| ==> HoldsId(store.Cached(r), DeliveryId(Received(batch[i])))
    ensures forall e :: e in store.Cached(r) ==>
              e in old(store.Cached(r)) ||
              exists m :: m in batch && NoNil(m) && e.data == Decode(m) && e.data.body == m.body
    ensures SameElsewhere(old(store.contents), store.contents, r)
  {
    hide InMemoryStore.Valid, SameElsewhere, Datas, AddAll, HoldsId, DeliveryId, NonEmpty, CameFrom, Decode, Received;
    NoneCameFrom(store.Cached(r), batch);
    SameElsewhereTransitive(store.contents, store.contents, store.contents, r);
    AddNone(Datas(store.Cached(r)));
    assert Decoded(batch[..0]) == [];
    ghost var first := store.Cached(r);
    for i := 0 to |batch|
      invariant first <= store.Cached(r)
      invariant forall h :: 0 <= h < i ==> HoldsId(store.Cached(r), DeliveryId(Received(batch[h])))
      invariant CameFrom(store.Cached(r), |first|, batch, i)
      invariant store.Valid() && fresh(store.arrays - old(store.arrays)) && store.handed == old(store.handed)
      invariant Datas(store.Cached(r)) == AddAll(Datas(old(store.Cached(r))), Decoded(batch[..i]))
      invariant SameElsewhere(old(store.contents), store.contents, r)
    {
      ghost var before, list := store.contents, store.Cached(r);
      CacheEvent(store, r, batch[i]);
      SameElsewhereTransitive(old(store.contents), before, store.contents, r);
      StillHeld(list, store.Cached(r));
      StillFrom(list, store.Cached(r), |first|, batch, i);
      assert Decoded(batch[..i+1]) == Decoded(batch[..i]) + [Decode(batch[i])];
      AddAllAppend(Datas(old(store.Cached(r))), Decoded(batch[..i]), [Decode(batch[i])]);
    }
    assert batch[..|batch|] == batch;
    CameFromMeans(first, store.Cached(r), batch);
  }
}

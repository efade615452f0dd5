/** Progress with one stream handler: a fetch tick whose send succeeds, and a cleaner tick
    late enough, drain what was cached. */
module Drain {
  import opened Events
  import opened CacheSpec
  import opened Protocol
  import opened Safety
  import opened RelayedOrder
  import opened SingleFetch

  ghost predicate SendsSucceed(acts: seq<Action>) {
    forall i :: 0 <= i < |acts| && acts[i].Fetch? ==> acts[i].ok
  }

  ghost predicate NoFetch(acts: seq<Action>) {
    forall i :: 0 <= i < |acts| ==> !acts[i].Fetch?
  }

  /** The tick in progress will have sent the first `n` events when it ends. */
  ghost predicate WillSend(s: State, n: nat) {
    |s.fetchers| == 1 && if s.fetchers[0].Waiting? then |s.sent| >= n else s.fetchers[0].upto >= n
  }

  lemma {:induction false} TickRuns(s: State, n: nat, acts: seq<Action>)
    requires OneStream(s) && WillSend(s, n) && SendsSucceed(acts)
    ensures OneStream(Exec(s, acts)) && WillSend(Exec(s, acts), n)
  {
    if acts == [] {
    } else {
      var before, a := Exec(s, acts[..|acts|-1]), acts[|acts|-1];
      TickRuns(s, n, acts[..|acts|-1]);
      NextOneStream(before, a);
      TickGoesOn(before, n, a);
    }
  }

  lemma TickGoesOn(s: State, n: nat, a: Action)
    requires OneStream(s) && WillSend(s, n) && (a.Fetch? ==> a.ok)
    ensures WillSend(Next(s, a), n)
  {
    hide Inv, FlagsUpTo, TimesUpTo;
  }

  /** The first `r` events are marked, none of them later than `last`. */
  ghost predicate Settled(s: State, r: nat, last: Time) {
    && OneStream(s) && r <= |s.heap| && r <= Timed(s.fetchers[0], |s.sent|)
    && forall o :: 0 <= o < r ==> s.heap[o].time <= last
  }

  lemma FetchSettled(s: State, ok: bool, r: nat, last: Time)
    requires Settled(s, r, last)
    ensures Settled(FetchStep(s, 0, ok), r, last) && SameUpTo(s.heap, FetchStep(s, 0, ok).heap, r)
  {
    hide Inv, FlagId, StampId, FlagsUpTo, TimesUpTo;
    FetchOneStream(s, ok);
    var f := s.fetchers[0];
    if f.Marking? && f.j < |f.batch| { MarkHits(s); }
  }

  /** The first `r` objects are untouched: data, flag, time and all. */
  ghost predicate SameUpTo(h: seq<Obj>, h': seq<Obj>, r: nat) {
    r <= |h| <= |h'| && forall o :: 0 <= o < r ==> h'[o] == h[o]
  }

  /** They stay so, whatever happens: no later mark reaches them. */
  lemma StepSettled(s: State, a: Action, r: nat, last: Time)
    requires Settled(s, r, last)
    ensures Settled(Next(s, a), r, last) && SameUpTo(s.heap, Next(s, a).heap, r) && Next(s, a).clock >= s.clock
  {
    hide Inv, FlagsUpTo, TimesUpTo, BatchInv, Keep, Gone, Holds, EventOf;
    if a.Fetch? {
      if a.k == 0 { FetchSettled(s, a.ok, r, last); }
    } else {
      NextOneStream(s, a);
    }
  }

  lemma {:induction false} RunSettled(s: State, acts: seq<Action>, r: nat, last: Time)
    requires Settled(s, r, last)
    ensures Settled(Exec(s, acts), r, last) && SameUpTo(s.heap, Exec(s, acts).heap, r) && Exec(s, acts).clock >= s.clock
  {
    hide OneStream;
    if acts == [] {
    } else {
      RunSettled(s, acts[..|acts|-1], r, last);
      StepSettled(Exec(s, acts[..|acts|-1]), acts[|acts|-1], r, last);
    }
  }

  /** A cleaner tick is on, or over, that began more than two minutes after `last`: of the
      settled events those still listed are still to be scanned. */
  ghost predicate Draining(s: State, r: nat, last: Time) {
    && Settled(s, r, last) && s.clock > last + RETENTION
    && match s.cleaner
       case Resting => NoneBelow(s.list, r)
       case Scanning(snap, i, stage) =>
         && (forall o :: o in s.list && o < r ==> ToScan(snap, i, o))
         && (stage.TimeRead? && i < |snap| && snap[i] < r ==> stage.t <= last)
  }

  ghost predicate NoneBelow(list: seq<nat>, r: nat) {
    forall o :: o in list ==> o >= r
  }

  ghost predicate ToScan(snap: seq<nat>, i: nat, o: nat) {
    exists p :: i <= p < |snap| && snap[p] == o
  }

  lemma ToScanNext(list: seq<nat>, snap: seq<nat>, i: nat, r: nat)
    requires forall o :: o in list && o < r ==> ToScan(snap, i, o)
    requires i < |snap| && (snap[i] < r ==> snap[i] !in list)
    ensures forall o :: o in list && o < r ==> ToScan(snap, i + 1, o)
  {
    forall o | o in list && o < r ensures ToScan(snap, i + 1, o) {
      var p :| i <= p < |snap| && snap[p] == o;
      assert p != i;
    }
  }

  /** What is settled is found due. */
  lemma SettledIsDue(s: State, r: nat, last: Time)
    requires Draining(s, r, last) && s.cleaner.Scanning? && s.cleaner.i < |s.cleaner.snap|
    requires s.cleaner.stage.TimeRead? && s.cleaner.snap[s.cleaner.i] < r
    ensures Flag(s.heap, s.cleaner.snap[s.cleaner.i]) && s.clock > s.cleaner.stage.t + RETENTION
  {
    hide Inv;
  }

  lemma DrainTest(s: State, r: nat, last: Time)
    requires Draining(s, r, last) && s.cleaner.Scanning? && s.cleaner.i < |s.cleaner.snap| && s.cleaner.stage.TimeRead?
    ensures Draining(CleanStep(s), r, last)
  {
    hide OneStream, Inv, Timed, ToScan;
    StepSettled(s, Clean, r, last);
    if s.cleaner.snap[s.cleaner.i] < r {
      SettledIsDue(s, r, last);
    } else {
      ToScanNext(s.list, s.cleaner.snap, s.cleaner.i, r);
    }
  }

  lemma DrainRemoval(s: State, r: nat, last: Time)
    requires Draining(s, r, last) && s.cleaner.Scanning? && s.cleaner.i < |s.cleaner.snap| && s.cleaner.stage.Condemned?
    ensures Draining(CleanStep(s), r, last)
  {
    hide OneStream, Inv, Timed, ToScan, Keep, Gone;
    StreamIsSafe(s);
    StepSettled(s, Clean, r, last);
    CondemnedIsDropped(s);
    ToScanNext(CleanStep(s).list, s.cleaner.snap, s.cleaner.i, r);
  }

  lemma DrainClean(s: State, r: nat, last: Time)
    requires Draining(s, r, last)
    ensures Draining(CleanStep(s), r, last)
  {
    var c := s.cleaner;
    if c.Scanning? && c.i < |c.snap| && c.stage.TimeRead? {
      DrainTest(s, r, last);
    } else if c.Scanning? && c.i < |c.snap| && c.stage.Condemned? {
      DrainRemoval(s, r, last);
    } else {
      DrainRead(s, r, last);
    }
  }

  /** The steps that take a snapshot, read a time or end the tick. */
  lemma DrainRead(s: State, r: nat, last: Time)
    requires Draining(s, r, last)
    requires s.cleaner.Scanning? && s.cleaner.i < |s.cleaner.snap| ==> s.cleaner.stage.Untested?
    ensures Draining(CleanStep(s), r, last)
  {
    hide OneStream, Inv, Timed, Keep, Gone;
    StepSettled(s, Clean, r, last);
    assert forall o :: o in s.list ==> exists i :: 0 <= i < |s.list| && s.list[i] == o;
  }

  lemma DrainStep(s: State, a: Action, r: nat, last: Time)
    requires Draining(s, r, last)
    ensures Draining(Next(s, a), r, last)
  {
    hide OneStream, Inv, Timed, Keep, Gone, ToScan, CleanStep, FetchStep;
    if a.Clean? {
      DrainClean(s, r, last);
    } else {
      StreamIsSafe(s);
      StepSettled(s, a, r, last);
      NextList(s, a);
    }
  }

  /** Only the cleaner takes events off the list. */
  lemma NextList(s: State, a: Action)
    requires Inv(s) && !a.Clean? && s.pushers == []
    ensures var s' := Next(s, a);
            && s'.cleaner == s.cleaner
            && (forall o :: o in s'.list ==> o in s.list || o == |s.heap|)
  {
    hide Inv;
    if a.Fetch? && a.k < |s.fetchers| { FetcherMoves(s, a.k, a.ok); }
  }

  lemma {:induction false} DrainRuns(s: State, r: nat, last: Time, acts: seq<Action>)
    requires Draining(s, r, last)
    ensures Draining(Exec(s, acts), r, last)
  {
    if acts == [] {
    } else {
      DrainRuns(s, r, last, acts[..|acts|-1]);
      DrainStep(Exec(s, acts[..|acts|-1]), acts[|acts|-1], r, last);
    }
  }

  lemma RestsOn(s: State, a: Action)
    requires !a.Fetch?
    ensures Next(s, a).fetchers == s.fetchers && Next(s, a).sent == s.sent
  {
    hide EventOf, WellFormed, Holds, Keep, Gone;
  }

  /** Without fetch steps a handler at rest stays so, and has sent what it had. */
  lemma {:induction false} HandlerRests(s: State, acts: seq<Action>)
    requires OneStream(s) && s.fetchers[0].Waiting? && NoFetch(acts)
    ensures var s' := Exec(s, acts); OneStream(s') && s'.fetchers[0].Waiting? && s'.sent == s.sent
  {
    hide OneStream, CleanStep, Ingest, EventOf, WellFormed;
    if acts == [] {
      StreamIsSafe(s);
    } else {
      var before, a := Exec(s, acts[..|acts|-1]), acts[|acts|-1];
      HandlerRests(s, acts[..|acts|-1]);
      StreamIsSafe(before);
      NextOneStream(before, a);
      RestsOn(before, a);
    }
  }

  lemma CleanKeepsRest(s: State)
    ensures CleanStep(s).fetchers == s.fetchers && CleanStep(s).sent == s.sent && CleanStep(s).heap == s.heap
  {}

  lemma {:induction false} IncreasingRange(list: seq<nat>, r: nat, n: nat)
    requires r <= n && Increasing(list) && forall o: nat :: o in list <==> r <= o < n
    ensures list == Range(r, n)
  {
    forall i | 0 <= i < |list| ensures r + i <= list[i] { AtLeast(list, r, i); }
    assert |list| <= n - r by {
      if list != [] { assert list[|list|-1] in list; }
    }
    forall i | 0 <= i < n - r ensures i < |list| && list[i] == r + i { AtMost(list, r, n, i); }
    if r < n { AtMost(list, r, n, n - r - 1); }
  }

  lemma {:induction false} AtLeast(list: seq<nat>, r: nat, i: nat)
    requires Increasing(list) && i < |list| && forall x :: x in list ==> x >= r
    ensures list[i] >= r + i
  {
    assert list[i] in list;
    if i > 0 { AtLeast(list, r, i - 1); }
  }

  lemma {:induction false} AtMost(list: seq<nat>, r: nat, n: nat, i: nat)
    requires Increasing(list) && r + i < n && forall o: nat :: r <= o < n ==> o in list
    requires forall k :: 0 <= k < |list| ==> list[k] >= r + k
    ensures i < |list| && list[i] == r + i
  {
    if i > 0 { AtMost(list, r, n, i - 1); }
    assert r + i in list;
    var k :| 0 <= k < |list| && list[k] == r + i;
    assert k <= i;
    assert forall h :: 0 <= h < i && h < |list| && i > 0 ==> list[h] <= list[i-1];
  }

  /** Progress. `s` is about to fetch; the fetch tick runs to its end with successful sends
      (`fetch`), then anything happens for more than two minutes (`gap`), then a cleaner
      tick begins and ends (`clean`): ingest, the cleaner and later fetch ticks, failing
      or not, may take any step at any point of all three. Everything cached at the start
      is then gone, and what has not been sent is cached. */
  lemma {:induction false} DrainProgress(s: State, fetch: seq<Action>, gap: seq<Action>, clean: seq<Action>)
    requires OneStream(s) && s.fetchers[0].Waiting? && SendsSucceed(fetch)
    requires var f := Exec(Next(s, Fetch(0, true)), fetch);
             && |f.fetchers| == 1 && f.fetchers[0].Waiting?
             && Exec(f, gap).clock > f.clock + RETENTION && Exec(f, gap).cleaner.Resting?
    requires Exec(Next(Exec(Exec(Next(s, Fetch(0, true)), fetch), gap), Clean), clean).cleaner.Resting?
    ensures var f := Exec(Next(s, Fetch(0, true)), fetch);
            var g := Exec(Next(Exec(f, gap), Clean), clean);
            && |s.heap| <= |f.sent| <= |g.heap|
            && NoneBelow(g.list, |f.sent|)
            && forall o :: |g.sent| <= o < |g.heap| ==> o in g.list && !Flag(g.heap, o)
  {
    hide OneStream, Inv, Settled, Draining;
    NextOneStream(s, Fetch(0, true));
    FetchBegins(s);
    TickRuns(Next(s, Fetch(0, true)), |s.heap|, fetch);
    var f := Exec(Next(s, Fetch(0, true)), fetch);
    SentIsSettled(f);
    RunSettled(f, gap, |f.sent|, f.clock);
    CleaningBegins(Exec(f, gap), |f.sent|, f.clock);
    DrainRuns(Next(Exec(f, gap), Clean), |f.sent|, f.clock, clean);
    Drained(Exec(Next(Exec(f, gap), Clean), clean), |f.sent|, f.clock);
  }

  lemma FetchBegins(s: State)
    requires OneStream(s) && s.fetchers[0].Waiting?
    ensures WillSend(Next(s, Fetch(0, true)), |s.heap|)
  {}

  lemma SentIsSettled(s: State)
    requires OneStream(s) && s.fetchers[0].Waiting?
    ensures Settled(s, |s.sent|, s.clock)
  {}

  lemma CleaningBegins(s: State, r: nat, last: Time)
    requires Settled(s, r, last) && s.clock > last + RETENTION && s.cleaner.Resting?
    ensures Draining(Next(s, Clean), r, last)
  {
    hide OneStream, Inv, Timed;
    StepSettled(s, Clean, r, last);
    assert forall o :: o in s.list ==> exists i :: 0 <= i < |s.list| && s.list[i] == o;
  }

  lemma Drained(s: State, r: nat, last: Time)
    requires Draining(s, r, last) && s.cleaner.Resting?
    ensures r <= |s.heap| && NoneBelow(s.list, r)
    ensures forall o :: |s.sent| <= o < |s.heap| ==> o in s.list && !Flag(s.heap, o)
  {
    hide Inv;
    UnrelayedListed(s);
  }

  /** With no other fetch tick in `gap` and `clean`, the list is exactly the events accepted
      after the batch was taken, unrelayed, in accept order. */
  lemma {:induction false} DrainsExactly(s: State, fetch: seq<Action>, gap: seq<Action>, clean: seq<Action>)
    requires OneStream(s) && s.fetchers[0].Waiting? && SendsSucceed(fetch) && NoFetch(gap) && NoFetch(clean)
    requires var f := Exec(Next(s, Fetch(0, true)), fetch);
             && |f.fetchers| == 1 && f.fetchers[0].Waiting?
             && Exec(f, gap).clock > f.clock + RETENTION && Exec(f, gap).cleaner.Resting?
    requires Exec(Next(Exec(Exec(Next(s, Fetch(0, true)), fetch), gap), Clean), clean).cleaner.Resting?
    ensures var f := Exec(Next(s, Fetch(0, true)), fetch);
            var g := Exec(Next(Exec(f, gap), Clean), clean);
            && |s.heap| <= |f.sent| <= |g.heap|
            && g.list == Range(|f.sent|, |g.heap|)
            && (forall o :: o in g.list ==> !Flag(g.heap, o))
  {
    hide OneStream, Inv;
    DrainProgress(s, fetch, gap, clean);
    NextOneStream(s, Fetch(0, true));
    RunOneStream(Next(s, Fetch(0, true)), fetch);
    var f := Exec(Next(s, Fetch(0, true)), fetch);
    HandlerRests(f, gap);
    NextOneStream(Exec(f, gap), Clean);
    CleanKeepsRest(Exec(f, gap));
    HandlerRests(Next(Exec(f, gap), Clean), clean);
    var g := Exec(Next(Exec(f, gap), Clean), clean);
    StreamIsSafe(g);
    ListIsRange(g, |f.sent|);
  }

  lemma ListIsRange(s: State, r: nat)
    requires Inv(s) && r <= |s.heap| && NoneBelow(s.list, r)
    requires forall o :: r <= o < |s.heap| ==> o in s.list && !Flag(s.heap, o)
    ensures s.list == Range(r, |s.heap|) && forall o :: o in s.list ==> !Flag(s.heap, o)
  {
    assert Increasing(s.list) && Below(s.list, |s.heap|);
    hide Inv;
    forall o: nat ensures o in s.list <==> r <= o < |s.heap| {
      if o in s.list {
        var i :| 0 <= i < |s.list| && s.list[i] == o;
      }
    }
    IncreasingRange(s.list, r, |s.heap|);
  }
}

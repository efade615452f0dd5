/** A repository served by one stream handler and no push relay, with ingest and the
    cleaner interleaved at every step. */
module SingleFetch {
  import opened Events
  import opened Codec
  import opened CacheSpec
  import opened Protocol
  import opened Safety
  import opened RelayedOrder

  ghost function Range(a: nat, b: nat): seq<nat>
    requires a <= b
  {
    seq(b - a, i requires 0 <= i => a + i)
  }

  /** How many events are relayed when `n` were sent: in a batch under marking, those
      whose flag is set. */
  ghost function Front(f: Fetcher, n: nat): int {
    match f
    case Sent(batch, _) => n - |batch|
    case Marking(_, batch, j, flagged, _) => n - |batch| + j + (if flagged then 1 else 0)
    case _ => n
  }

  /** How many have their time set. */
  ghost function Timed(f: Fetcher, n: nat): int {
    match f
    case Sent(batch, _) => n - |batch|
    case Marking(_, batch, j, _, _) => n - |batch| + j
    case _ => n
  }

  /** What the handler holds is a run of the accept order. */
  ghost predicate BatchInv(heap: seq<Obj>, n: nat, f: Fetcher) {
    match f
    case Waiting => true
    case Collecting(snap, i, batch, upto) =>
      && n + |batch| <= upto <= |heap| && batch == Range(n, n + |batch|)
      && i <= |snap| && Increasing(snap) && Below(snap, upto)
      && (forall p :: 0 <= p < i ==> snap[p] < n + |batch|)
      && (forall p :: i <= p < |snap| ==> snap[p] < n || snap[p] >= n + |batch|)
      && (forall o :: n <= o < upto ==> o in snap)
    case Ready(batch, upto) => n <= upto <= |heap| && batch == Range(n, upto)
    case Sent(batch, upto) => upto == n && |batch| <= n && batch == Range(n - |batch|, n)
    case Marking(snap, batch, j, flagged, upto) =>
      && upto == n && |batch| <= n && batch == Range(n - |batch|, n)
      && j <= |batch| && (flagged ==> j < |batch|)
      && (forall b :: j <= b < |batch| ==> batch[b] in snap)
  }

  ghost predicate FlagsUpTo(heap: seq<Obj>, front: int) {
    forall o :: 0 <= o < |heap| ==> (heap[o].relayed <==> o < front)
  }

  /** Times are set in accept order, not before the flag, never in the future, and are
      zero where not set. */
  ghost predicate TimesUpTo(heap: seq<Obj>, timed: int, clock: Time) {
    && (forall o :: 0 <= o < |heap| ==>
        if o < timed then heap[o].since <= heap[o].time <= clock else heap[o].time == ZERO_TIME)
    && (forall o :: 0 <= o < |heap| && heap[o].relayed ==> heap[o].since <= clock)
    && (forall o, p :: 0 <= o < p < |heap| && p < timed ==> heap[o].time <= heap[p].time)
  }

  ghost predicate OneStream(s: State) {
    && Inv(s) && |s.fetchers| == 1 && s.pushers == []
    && |s.sent| <= |s.heap| && s.sent == Range(0, |s.sent|)
    && BatchInv(s.heap, |s.sent|, s.fetchers[0])
    && FlagsUpTo(s.heap, Front(s.fetchers[0], |s.sent|))
    && TimesUpTo(s.heap, Timed(s.fetchers[0], |s.sent|), s.clock)
  }

  // ---------- The invariant is kept ----------

  lemma StreamIsSafe(s: State)
    requires OneStream(s)
    ensures Inv(s) && |s.fetchers| == 1 && s.pushers == []
  {}

  lemma UnrelayedListed(s: State)
    requires Inv(s)
    ensures forall o :: 0 <= o < |s.heap| && !s.heap[o].relayed ==> o in s.list
  {
    ListCovers(s);
  }

  /** The next unrelayed event of the snapshot is the next one in accept order. */
  lemma NextCollected(heap: seq<Obj>, n: nat, f: Fetcher)
    requires BatchInv(heap, n, f) && f.Collecting? && f.i < |f.snap| && f.snap[f.i] >= n
    ensures f.snap[f.i] == n + |f.batch| && f.batch + [f.snap[f.i]] == Range(n, n + |f.batch| + 1)
  {
    var next := n + |f.batch|;
    assert next in f.snap;
    var q :| 0 <= q < |f.snap| && f.snap[q] == next;
  }

  lemma CollectStep(s: State)
    requires OneStream(s) && s.fetchers[0].Collecting? && s.fetchers[0].i < |s.fetchers[0].snap|
    ensures OneStream(FetchStep(s, 0, true))
  {
    hide Inv, TimesUpTo, FlagsUpTo, Range, Grows;
    var f, n := s.fetchers[0], |s.sent|;
    FetchKeeps(s, 0, true);
    FlaggedIsSent(s, f.snap[f.i]);
    if !Flag(s.heap, f.snap[f.i]) {
      NextCollected(s.heap, n, f);
    }
  }

  lemma FlaggedIsSent(s: State, o: nat)
    requires OneStream(s) && s.fetchers[0].Collecting? && o < |s.heap|
    ensures Flag(s.heap, o) <==> o < |s.sent|
  {}

  lemma CollectEnd(s: State)
    requires OneStream(s) && s.fetchers[0].Collecting? && s.fetchers[0].i == |s.fetchers[0].snap|
    ensures OneStream(FetchStep(s, 0, true))
  {
    var f, n := s.fetchers[0], |s.sent|;
    FetchKeeps(s, 0, true);
    hide ListInv, CleanerInv, FetcherInv, PusherInv, TimesUpTo;
    var snap, upto, next := f.snap, f.upto, n + |f.batch|;
    assert next < upto ==> next in snap;
  }

  /** The mark by ID hits exactly the event that was sent. */
  lemma MarkHits(s: State)
    requires OneStream(s) && s.fetchers[0].Marking? && s.fetchers[0].j < |s.fetchers[0].batch|
    ensures var f := s.fetchers[0];
            var x := f.batch[f.j];
            && x == Timed(f, |s.sent|) && x < |s.heap| && x in s.sent
            && FetchStep(s, 0, true).heap ==
                 s.heap[x := if f.flagged then s.heap[x].(time := s.clock) else Flagged(s.heap[x], s.clock)]
  {
    var f := s.fetchers[0];
    var x := f.batch[f.j];
    assert s.sent[x] == x;
    assert FetcherInv(s.heap, f);
    forall o | 0 <= o < |s.heap| && o in f.snap && s.heap[o].data.id == IdOf(s.heap, x) ensures o == x {
      var p :| 0 <= p < |f.snap| && f.snap[p] == o;
      var q :| 0 <= q < |f.snap| && f.snap[q] == x;
      assert IdOf(s.heap, f.snap[p]) == IdOf(s.heap, f.snap[q]);
    }
  }

  lemma FlagStep(s: State)
    requires OneStream(s) && s.fetchers[0].Marking? && s.fetchers[0].j < |s.fetchers[0].batch| && !s.fetchers[0].flagged
    ensures OneStream(FetchStep(s, 0, true))
  {
    var f, s' := s.fetchers[0], FetchStep(s, 0, true);
    hide FlagId, StampId, ListInv, CleanerInv, FetcherInv, PusherInv;
    MarkHits(s);
    FetchKeeps(s, 0, true);
    assert s' == s.(heap := s'.heap, fetchers := s.fetchers[0 := Marking(f.snap, f.batch, f.j, true, f.upto)]);
    hide Inv, FetchStep, Range;
    FlagMoves(s.heap, s'.heap, f.batch[f.j], s.clock);
    BatchMoves(s.heap, s'.heap, |s.sent|, f);
    hide FlagsUpTo, TimesUpTo, BatchInv;
  }

  lemma StampStep(s: State)
    requires OneStream(s) && s.fetchers[0].Marking? && s.fetchers[0].j < |s.fetchers[0].batch| && s.fetchers[0].flagged
    ensures OneStream(FetchStep(s, 0, true))
  {
    var f, s' := s.fetchers[0], FetchStep(s, 0, true);
    hide FlagId, StampId, Inv, Range;
    assert s' == s.(heap := s'.heap, fetchers := s.fetchers[0 := Marking(f.snap, f.batch, f.j + 1, false, f.upto)]);
    MarkHits(s);
    FetchKeeps(s, 0, true);
    hide FetchStep, Grows;
    StampMoves(s.heap, s'.heap, f.batch[f.j], s.clock);
    BatchMoves(s.heap, s'.heap, |s.sent|, f);
    hide FlagsUpTo, TimesUpTo, BatchInv;
  }

  lemma BatchMoves(h: seq<Obj>, h': seq<Obj>, n: nat, f: Fetcher)
    requires BatchInv(h, n, f) && f.Marking? && f.j < |f.batch|
    ensures BatchInv(h', n, Marking(f.snap, f.batch, f.j, true, f.upto))
    ensures BatchInv(h', n, Marking(f.snap, f.batch, f.j + 1, false, f.upto))
  {}

  lemma FlagMoves(h: seq<Obj>, h': seq<Obj>, x: nat, clock: Time)
    requires x < |h| && h' == h[x := Flagged(h[x], clock)] && FlagsUpTo(h, x) && TimesUpTo(h, x, clock)
    ensures FlagsUpTo(h', x + 1) && TimesUpTo(h', x, clock)
  {}

  lemma StampMoves(h: seq<Obj>, h': seq<Obj>, x: nat, clock: Time)
    requires x < |h| && h' == h[x := h[x].(time := clock)] && FlagsUpTo(h, x + 1) && TimesUpTo(h, x, clock)
    ensures FlagsUpTo(h', x + 1) && TimesUpTo(h', x + 1, clock)
  {}

  lemma FetchOneStream(s: State, ok: bool)
    requires OneStream(s)
    ensures OneStream(FetchStep(s, 0, ok))
  {
    var f := s.fetchers[0];
    if f.Collecting? {
      if f.i < |f.snap| { CollectStep(s); } else { CollectEnd(s); }
    } else if f.Marking? && f.j < |f.batch| {
      if f.flagged { StampStep(s); } else { FlagStep(s); }
    } else {
      RetrieveOrSend(s, ok);
    }
  }

  /** The steps that take a slice of the cache, send, or end a tick. */
  lemma RetrieveOrSend(s: State, ok: bool)
    requires OneStream(s)
    requires var f := s.fetchers[0]; !f.Collecting? && (f.Marking? ==> f.j >= |f.batch|)
    ensures OneStream(FetchStep(s, 0, ok))
  {
    var f := s.fetchers[0];
    FetchKeeps(s, 0, ok);
    UnrelayedListed(s);
    assert Increasing(s.list) && Below(s.list, |s.heap|);
    hide ListInv, CleanerInv, FetcherInv, PusherInv, TimesUpTo;
    if f.Ready? && ok {
      assert s.sent + f.batch == Range(0, f.upto);
    }
  }

  /** Ingest only adds an unrelayed event at the end. */
  lemma IngestOneStream(s: State, e: EventData)
    requires OneStream(s) && Coherent(e)
    ensures OneStream(Ingest(s, e))
  {
    IngestKeeps(s, e);
    hide ListInv, CleanerInv, FetcherInv, PusherInv;
  }

  lemma NextOneStream(s: State, a: Action)
    requires OneStream(s)
    ensures OneStream(Next(s, a))
  {
    hide ListInv, CleanerInv, FetcherInv, BatchInv;
    match a
    case Accept(source) =>
      if WellFormed(source) {
        IngressIsCoherent(source);
        IngestOneStream(s, EventOf(source));
      }
    case Wait(d) => NextKeeps(s, a);
    case Clean => CleanKeeps(s);
    case Fetch(k, ok) => if k == 0 { FetchOneStream(s, ok); }
    case Push(k) =>
  }

  lemma {:induction false} RunOneStream(s: State, acts: seq<Action>)
    requires OneStream(s)
    ensures OneStream(Exec(s, acts))
  {
    if acts == [] {
    } else {
      RunOneStream(s, acts[..|acts|-1]);
      NextOneStream(Exec(s, acts[..|acts|-1]), acts[|acts|-1]);
    }
  }

  lemma InitOneStream(start: Time)
    ensures OneStream(Init(1, 0, start))
  {}

  // ---------- Theorems ----------

  /** On every schedule the send log is the accept order itself, without gap or repeat;
      only sent events are ever marked; the list's relayed events come first; and between
      fetch ticks exactly the sent events are marked. */
  lemma OneStreamDelivers(start: Time, acts: seq<Action>)
    ensures var s := Exec(Init(1, 0, start), acts);
            && |s.fetchers| == 1 && |s.sent| <= |s.heap| && s.sent == Range(0, |s.sent|)
            && (forall o :: 0 <= o < |s.heap| && s.heap[o].relayed ==> o in s.sent)
            && RelayedPrefix(s)
            && (s.fetchers[0].Waiting? ==> forall o :: o in s.sent ==> Flag(s.heap, o))
  {
    InitOneStream(start);
    RunOneStream(Init(1, 0, start), acts);
    var s := Exec(Init(1, 0, start), acts);
    forall o | 0 <= o < |s.heap| && s.heap[o].relayed ensures o in s.sent { assert s.sent[o] == o; }
  }

  /** A `Send` that fails marks nothing and sends nothing: the batch stays pending. */
  lemma FailedSendKeepsPending(s: State)
    requires OneStream(s) && s.fetchers[0].Ready?
    ensures var s' := FetchStep(s, 0, false);
            && s'.heap == s.heap && s'.list == s.list && s'.sent == s.sent
            && (forall b :: b in s.fetchers[0].batch ==> b in s'.list && !s'.heap[b].relayed)
  {
    UnrelayedListed(s);
  }
}

/** With one stream handler the cache is a queue, whatever is interleaved with the cleaner,
    as long as no mark falls into its reading of the same event and no event becomes due in
    mid-tick behind one that was tested and left. */
module Queue {
  import opened Events
  import opened Codec
  import opened CacheSpec
  import opened CleanerTick
  import opened Protocol
  import opened Safety
  import opened RelayedOrder
  import opened SingleFetch
  import opened Exclusivity
  import opened Retention

  /** Not marked, or not for long enough. */
  ghost predicate Stays(s: State, o: nat)
    requires |s.fetchers| == 1
  {
    o >= Timed(s.fetchers[0], |s.sent|) || s.clock <= Stamp(s.heap, o) + RETENTION
  }

  /** In mid-tick time passes, and the next event to be tested becomes due although an
      event before it, tested already, is still listed. */
  ghost predicate Overtakes(s: State, a: Action) {
    && a.Wait? && |s.fetchers| == 1 && s.cleaner.Scanning? && s.cleaner.i < |s.cleaner.snap|
    && var o := s.cleaner.snap[s.cleaner.i];
       |s.drops| < o && Stays(s, o) && !Stays(Next(s, a), o)
  }

  ghost predicate NeverOvertaken(s: State, acts: seq<Action>) {
    forall n :: 0 <= n < |acts| ==> !Overtakes(Exec(s, acts[..n]), acts[n])
  }

  lemma NeverOvertakenFront(s: State, acts: seq<Action>)
    requires NeverOvertaken(s, acts) && acts != []
    ensures NeverOvertaken(s, acts[..|acts|-1]) && !Overtakes(Exec(s, acts[..|acts|-1]), acts[|acts|-1])
  {
    var front := acts[..|acts|-1];
    forall n | 0 <= n < |front| ensures !Overtakes(Exec(s, front[..n]), front[n]) {
      assert front[..n] == acts[..n];
    }
  }

  /** What the tick in progress has come to: what it scans is a run of accept numbers, and
      as soon as one tested event is left in the list, those not tested yet stay. */
  ghost predicate ScanInv(s: State)
    requires |s.fetchers| == 1
  {
    s.cleaner.Scanning? ==>
      var snap, i, stage, first := s.cleaner.snap, s.cleaner.i, s.cleaner.stage, |s.drops|;
      && i <= |snap|
      && (snap != [] ==>
            && snap == Range(snap[0], snap[0] + |snap|) && snap[0] + |snap| <= |s.heap|
            && snap[0] <= first <= snap[0] + i)
      && (i < |snap| && first < snap[i] ==> Stays(s, snap[i]))
      && (i < |snap| && stage.TimeRead? ==>
            stage.t == Stamp(s.heap, snap[i]) && !(Marks(s.fetchers[0], snap[i]) && s.fetchers[0].flagged))
      && (i < |snap| && stage.Condemned? ==> snap[i] == first)
  }

  ghost predicate IsQueue(s: State) {
    && |s.drops| <= |s.heap| && s.list == Range(|s.drops|, |s.heap|)
    && forall d :: 0 <= d < |s.drops| ==> s.drops[d].obj == d
  }

  ghost predicate QueueInv(s: State) {
    OneStream(s) && IsQueue(s) && ScanInv(s)
  }

  // ---------- The invariant is kept ----------

  /** What is relayed and not half marked has its time. */
  lemma TimedWhenFlagged(s: State, o: nat)
    requires OneStream(s) && Flag(s.heap, o) && !(Marks(s.fetchers[0], o) && s.fetchers[0].flagged)
    ensures o < Timed(s.fetchers[0], |s.sent|)
  {
    var f := s.fetchers[0];
    assert f.Marking? && f.flagged ==> f.batch[f.j] == Timed(f, |s.sent|);
  }

  lemma LaterStays(s: State, o: nat, p: nat)
    requires OneStream(s) && o <= p < |s.heap| && Stays(s, o)
    ensures Stays(s, p)
  {}

  /** The test finds the event due only if it is the first one listed; if it is that one
      and not due, it stays. */
  lemma Tested(s: State)
    requires QueueInv(s) && s.cleaner.Scanning? && s.cleaner.i < |s.cleaner.snap| && s.cleaner.stage.TimeRead?
    ensures var o := s.cleaner.snap[s.cleaner.i];
            && |s.drops| <= o < |s.heap|
            && if Flag(s.heap, o) && s.clock > s.cleaner.stage.t + RETENTION then o == |s.drops| else Stays(s, o)
  {
    var o := s.cleaner.snap[s.cleaner.i];
    hide Inv, FlagsUpTo, TimesUpTo, BatchInv;
    if Flag(s.heap, o) {
      TimedWhenFlagged(s, o);
    } else {
      TimedIsFlagged(s, o);
    }
  }

  lemma TimedIsFlagged(s: State, o: nat)
    requires OneStream(s) && o < |s.heap| && !Flag(s.heap, o)
    ensures o >= Timed(s.fetchers[0], |s.sent|)
  {}

  lemma TestKeepsQueue(s: State)
    requires QueueInv(s) && s.cleaner.Scanning? && s.cleaner.i < |s.cleaner.snap| && s.cleaner.stage.TimeRead?
    ensures QueueInv(CleanStep(s))
  {
    hide OneStream, Inv, Range, Keep, Gone, Stamp;
    StreamIsSafe(s);
    var snap, i := s.cleaner.snap, s.cleaner.i;
    RunAt(snap, i);
    Tested(s);
    if i + 1 < |snap| && Stays(s, snap[i]) {
      RunAt(snap, i + 1);
      LaterStays(s, snap[i], snap[i+1]);
    }
    NextOneStream(s, Clean);
  }

  lemma RemovalKeepsQueue(s: State)
    requires QueueInv(s) && s.cleaner.Scanning? && s.cleaner.i < |s.cleaner.snap| && s.cleaner.stage.Condemned?
    ensures QueueInv(CleanStep(s))
  {
    hide OneStream, Inv, CleanStep, Timed, Range, Omit, Stays;
    StreamIsSafe(s);
    NextOneStream(s, Clean);
    var k := RemovalAt(s);
    OmitFirst(|s.drops|, |s.heap|, k);
    RunAt(s.cleaner.snap, s.cleaner.i);
    if s.cleaner.i + 1 < |s.cleaner.snap| { RunAt(s.cleaner.snap, s.cleaner.i + 1); }
  }

  lemma RunAt(snap: seq<nat>, i: nat)
    requires i < |snap| && snap == Range(snap[0], snap[0] + |snap|)
    ensures snap[i] == snap[0] + i
  {}

  lemma OmitFirst(a: nat, b: nat, k: nat)
    requires a <= b && k < |Range(a, b)| && Range(a, b)[k] == a
    ensures a < b && Omit(Range(a, b), k) == Range(a + 1, b)
  {}

  /** The steps that take a snapshot, read a time or end the tick. */
  lemma ReadKeepsQueue(s: State)
    requires QueueInv(s) && !Disturbs(s, Clean)
    requires s.cleaner.Scanning? && s.cleaner.i < |s.cleaner.snap| ==> s.cleaner.stage.Untested?
    ensures QueueInv(CleanStep(s))
  {
    hide OneStream, Inv, Timed, Keep, Gone;
    StreamIsSafe(s);
    NextOneStream(s, Clean);
  }

  lemma CleanKeepsQueue(s: State)
    requires QueueInv(s) && !Disturbs(s, Clean)
    ensures QueueInv(CleanStep(s))
  {
    hide OneStream, Inv, Stays, Keep, Gone;
    var c := s.cleaner;
    if c.Scanning? && c.i < |c.snap| && c.stage.TimeRead? {
      TestKeepsQueue(s);
    } else if c.Scanning? && c.i < |c.snap| && c.stage.Condemned? {
      RemovalKeepsQueue(s);
    } else {
      ReadKeepsQueue(s);
    }
  }

  /** A fetch step makes no event due: it sets a time only to the present instant. */
  lemma FetchStays(s: State, ok: bool, o: nat)
    requires OneStream(s) && o < |s.heap| && Stays(s, o)
    ensures |FetchStep(s, 0, ok).fetchers| == 1 && Stays(FetchStep(s, 0, ok), o)
  {
    var f := s.fetchers[0];
    if f.Marking? && f.j < |f.batch| {
      MarkHits(s);
      hide Inv, FlagId, StampId, FlagsUpTo, TimesUpTo;
    } else {
      hide Inv, FlagsUpTo, TimesUpTo;
    }
  }

  /** The handler leaves alone every event but the one it marks. */
  lemma FetchSpares(s: State, ok: bool, o: nat)
    requires OneStream(s) && !Marks(s.fetchers[0], o)
    ensures var s' := FetchStep(s, 0, ok);
            && |s'.fetchers| == 1 && Stamp(s'.heap, o) == Stamp(s.heap, o)
            && !(Marks(s'.fetchers[0], o) && s'.fetchers[0].flagged)
  {
    var f := s.fetchers[0];
    if f.Marking? && f.j < |f.batch| {
      MarkHits(s);
      hide Inv, FlagId, StampId, FlagsUpTo, TimesUpTo;
    } else {
      hide Inv, FlagsUpTo, TimesUpTo;
    }
  }

  lemma FetchKeepsQueue(s: State, ok: bool)
    requires QueueInv(s) && !Disturbs(s, Fetch(0, ok))
    ensures QueueInv(FetchStep(s, 0, ok))
  {
    hide OneStream, Inv, FetchStep, Range, Stays, Stamp, Marks, Grows;
    StreamIsSafe(s);
    FetchOneStream(s, ok);
    FetcherMoves(s, 0, ok);
    if s.cleaner.Scanning? && s.cleaner.i < |s.cleaner.snap| {
      var o := s.cleaner.snap[s.cleaner.i];
      RunAt(s.cleaner.snap, s.cleaner.i);
      if |s.drops| < o { FetchStays(s, ok, o); }
      if s.cleaner.stage.TimeRead? { FetchSpares(s, ok, o); }
    }
  }

  lemma AcceptKeepsQueue(s: State, source: Ingress)
    requires QueueInv(s)
    ensures QueueInv(Next(s, Accept(source)))
  {
    hide OneStream, Inv, Holds, Range, EventOf, WellFormed;
    NextOneStream(s, Accept(source));
    RangeNext(|s.drops|, |s.heap|);
  }

  lemma RangeNext(a: nat, b: nat)
    requires a <= b
    ensures Range(a, b) + [b] == Range(a, b + 1)
  {}

  lemma StepKeepsQueue(s: State, a: Action)
    requires QueueInv(s) && !Disturbs(s, a) && !Overtakes(s, a)
    ensures QueueInv(Next(s, a))
  {
    hide OneStream, Inv, CleanStep, FetchStep, Ingest, Range;
    StreamIsSafe(s);
    match a
    case Accept(source) => AcceptKeepsQueue(s, source);
    case Wait(d) => NextOneStream(s, a);
    case Clean => CleanKeepsQueue(s);
    case Fetch(k, ok) => if k == 0 { FetchKeepsQueue(s, ok); }
    case Push(k) =>
  }

  lemma {:induction false} RunKeepsQueue(start: Time, acts: seq<Action>)
    requires Undisturbed(Init(1, 0, start), acts) && NeverOvertaken(Init(1, 0, start), acts)
    ensures QueueInv(Exec(Init(1, 0, start), acts))
  {
    if acts == [] {
      InitOneStream(start);
    } else {
      UndisturbedFront(Init(1, 0, start), acts);
      NeverOvertakenFront(Init(1, 0, start), acts);
      RunKeepsQueue(start, acts[..|acts|-1]);
      StepKeepsQueue(Exec(Init(1, 0, start), acts[..|acts|-1]), acts[|acts|-1]);
    }
  }

  /** The cache is a queue. On every schedule of one stream handler, ingest and cleaner,
      with time passing anywhere, in which no mark falls into the cleaner's reading of the
      same event and no event is overtaken: what was removed is the first accepted events,
      in accept order, and what is listed is all the others. */
  lemma {:induction false} CacheIsQueue(start: Time, acts: seq<Action>)
    requires Undisturbed(Init(1, 0, start), acts) && NeverOvertaken(Init(1, 0, start), acts)
    ensures var s := Exec(Init(1, 0, start), acts);
            && |s.drops| <= |s.heap| && s.list == Range(|s.drops|, |s.heap|)
            && forall d :: 0 <= d < |s.drops| ==> s.drops[d].obj == d
  {
    RunKeepsQueue(start, acts);
  }

  // ---------- The condition on waits is exact ----------

  ghost function Cleans(n: nat): seq<Action> {
    seq(n, _ => Clean)
  }

  ghost predicate HalfMarking(s: State) {
    |s.fetchers| == 1 && s.fetchers[0].Marking? && s.fetchers[0].flagged
  }

  lemma {:induction false} CleansKeepQueue(s: State, n: nat)
    requires QueueInv(s) && !HalfMarking(s)
    ensures QueueInv(Exec(s, Cleans(n))) && !HalfMarking(Exec(s, Cleans(n)))
  {
    hide QueueInv, Exec, CleanStep, Cleans;
    if n == 0 {
      NoCleans(s);
    } else {
      CleansKeepQueue(s, n - 1);
      CleansSnoc(s, n - 1);
      var before := Exec(s, Cleans(n - 1));
      CleanKeepsQueue(before);
      CleanKeepsHandlers(before);
    }
  }

  lemma NoCleans(s: State)
    ensures Exec(s, Cleans(0)) == s
  {
    assert Cleans(0) == [];
  }

  lemma CleanKeepsHandlers(s: State)
    ensures CleanStep(s).fetchers == s.fetchers
  {}

  lemma CleansSnoc(s: State, n: nat)
    ensures Exec(s, Cleans(n + 1)) == CleanStep(Exec(s, Cleans(n)))
  {
    RunSnoc(s, Cleans(n), Clean);
    assert Cleans(n + 1) == Cleans(n) + [Clean];
  }

  /** An overtaking wait, and then two or three steps of the cleaner alone, remove the
      overtaking event while one before it is listed. */
  lemma OvertakenFirst(s: State, d: nat) returns (n: nat)
    requires QueueInv(s) && Overtakes(s, Wait(d))
    ensures var t, o := Exec(Next(s, Wait(d)), Cleans(n)), s.cleaner.snap[s.cleaner.i];
            && |s.drops| < o && |t.drops| == |s.drops| + 1 && t.drops[|s.drops|].obj == o
            && !IsQueue(t)
  {
    var w, o := Next(s, Wait(d)), s.cleaner.snap[s.cleaner.i];
    NextOneStream(s, Wait(d));
    DueIsFlagged(w, o);
    var t := w;
    n := 0;
    NoCleans(w);
    hide OneStream, Exec, Keep, Gone;
    StreamIsSafe(w);
    if t.cleaner.stage.Untested? {
      CleansSnoc(w, n);
      n, t := n + 1, CleanStep(t);
    }
    assert t == w.(cleaner := Scanning(s.cleaner.snap, s.cleaner.i, TimeRead(Stamp(s.heap, o))));
    CleansSnoc(w, n);
    n, t := n + 1, CleanStep(t);
    assert t.cleaner.stage.Condemned?;
    StillSafe(w, t);
    CondemnedIsDropped(t);
    CleansSnoc(w, n);
    n, t := n + 1, CleanStep(t);
  }

  lemma DueIsFlagged(s: State, o: nat)
    requires OneStream(s) && o < |s.heap| && !Stays(s, o)
    ensures Flag(s.heap, o) && s.clock > Stamp(s.heap, o) + RETENTION
  {
    hide Inv;
  }

  /** Condemning an event that is due keeps the invariant. */
  lemma StillSafe(w: State, t: State)
    requires Inv(w) && w.cleaner.Scanning? && w.cleaner.i < |w.cleaner.snap|
    requires Flag(w.heap, w.cleaner.snap[w.cleaner.i]) && t.cleaner.Scanning?
    requires t == w.(cleaner := Scanning(w.cleaner.snap, w.cleaner.i, t.cleaner.stage))
    requires t.cleaner.stage.Condemned? && t.clock > t.cleaner.stage.t + RETENTION
    ensures Inv(t)
  {
    hide ListInv, FetcherInv, PusherInv;
  }

  lemma {:induction false} QueueAfterWaitIff(s: State, d: nat)
    requires QueueInv(s) && !HalfMarking(s)
    ensures (forall n: nat :: IsQueue(Exec(Next(s, Wait(d)), Cleans(n)))) <==> !Overtakes(s, Wait(d))
  {
    if Overtakes(s, Wait(d)) {
      var n := OvertakenFirst(s, d);
    } else {
      StepKeepsQueue(s, Wait(d));
      forall n: nat ensures IsQueue(Exec(Next(s, Wait(d)), Cleans(n))) {
        CleansKeepQueue(Next(s, Wait(d)), n);
      }
    }
  }

  /** The exact condition. At any point of such a schedule with no mark half written, let
      time pass and then only the cleaner go on: the cache stays a queue for good if and
      only if the wait does not overtake. */
  lemma {:induction false} WaitKeepsQueueIff(start: Time, acts: seq<Action>, d: nat)
    requires Undisturbed(Init(1, 0, start), acts) && NeverOvertaken(Init(1, 0, start), acts)
    requires !HalfMarking(Exec(Init(1, 0, start), acts))
    ensures var s := Exec(Init(1, 0, start), acts);
            (forall n: nat :: IsQueue(Exec(Next(s, Wait(d)), Cleans(n)))) <==> !Overtakes(s, Wait(d))
  {
    RunKeepsQueue(start, acts);
    QueueAfterWaitIff(Exec(Init(1, 0, start), acts), d);
  }

  // ---------- What a finished scan has done ----------

  /** In mid-tick time passes, and the first event listed becomes due although it was
      tested already. */
  ghost predicate Outlasts(s: State, a: Action) {
    && a.Wait? && |s.fetchers| == 1 && FirstTested(s)
    && Stays(s, |s.drops|) && !Stays(Next(s, a), |s.drops|)
  }

  ghost predicate FirstTested(s: State) {
    && s.cleaner.Scanning? && s.cleaner.snap != [] && |s.drops| < |s.heap|
    && |s.drops| < s.cleaner.snap[0] + s.cleaner.i
  }

  ghost predicate NeverOutlasted(s: State, acts: seq<Action>) {
    forall n :: 0 <= n < |acts| ==> !Outlasts(Exec(s, acts[..n]), acts[n])
  }

  lemma NeverOutlastedFront(s: State, acts: seq<Action>)
    requires NeverOutlasted(s, acts) && acts != []
    ensures NeverOutlasted(s, acts[..|acts|-1]) && !Outlasts(Exec(s, acts[..|acts|-1]), acts[|acts|-1])
  {
    var front := acts[..|acts|-1];
    forall n | 0 <= n < |front| ensures !Outlasts(Exec(s, front[..n]), front[n]) {
      assert front[..n] == acts[..n];
    }
  }

  /** A queue of which every tested event that is still listed stays. */
  ghost predicate ThoroughInv(s: State) {
    QueueInv(s) && (FirstTested(s) ==> Stays(s, |s.drops|))
  }

  /** What is not outlasted is not overtaken either. */
  lemma OutlastingComesFirst(s: State, a: Action)
    requires ThoroughInv(s) && Overtakes(s, a)
    ensures Outlasts(s, a)
  {
    var o := s.cleaner.snap[s.cleaner.i];
    NextOneStream(s, a);
    hide OneStream, Inv, Stays, Range;
    StreamIsSafe(s);
    RunAt(s.cleaner.snap, s.cleaner.i);
    if Stays(Next(s, a), |s.drops|) {
      LaterStays(Next(s, a), |s.drops|, o);
      assert false;
    }
  }

  lemma CleanIsThorough(s: State)
    requires ThoroughInv(s) && !Disturbs(s, Clean)
    ensures ThoroughInv(CleanStep(s))
  {
    hide OneStream, Inv, Keep, Gone, Range;
    StreamIsSafe(s);
    CleanKeepsQueue(s);
    var c := s.cleaner;
    if c.Scanning? && c.i < |c.snap| {
      RunAt(c.snap, c.i);
      if c.stage.TimeRead? { Tested(s); }
      if c.stage.Condemned? { CondemnedIsDropped(s); }
    }
  }

  lemma AcceptIsThorough(s: State, source: Ingress)
    requires ThoroughInv(s)
    ensures ThoroughInv(Next(s, Accept(source)))
  {
    hide OneStream, Inv, EventOf, WellFormed, Holds, Range;
    StreamIsSafe(s);
    AcceptKeepsQueue(s, source);
  }

  lemma StepIsThorough(s: State, a: Action)
    requires ThoroughInv(s) && !Disturbs(s, a) && !Outlasts(s, a)
    ensures ThoroughInv(Next(s, a))
  {
    hide OneStream, Inv, CleanStep, FetchStep, Ingest, Range, ScanInv;
    StreamIsSafe(s);
    if Overtakes(s, a) {
      OutlastingComesFirst(s, a);
      assert false;
    }
    StepKeepsQueue(s, a);
    match a
    case Accept(source) => AcceptIsThorough(s, source);
    case Wait(d) =>
    case Clean => CleanIsThorough(s);
    case Fetch(k, ok) =>
      if k == 0 {
        FetcherMoves(s, 0, ok);
        if FirstTested(s) { FetchStays(s, ok, |s.drops|); }
      }
    case Push(k) =>
  }

  lemma {:induction false} RunIsThorough(start: Time, acts: seq<Action>)
    requires Undisturbed(Init(1, 0, start), acts) && NeverOutlasted(Init(1, 0, start), acts)
    ensures ThoroughInv(Exec(Init(1, 0, start), acts))
  {
    if acts == [] {
      InitOneStream(start);
    } else {
      UndisturbedFront(Init(1, 0, start), acts);
      NeverOutlastedFront(Init(1, 0, start), acts);
      RunIsThorough(start, acts[..|acts|-1]);
      StepIsThorough(Exec(Init(1, 0, start), acts[..|acts|-1]), acts[|acts|-1]);
    }
  }

  /** Where, besides, no listed event becomes due after its test, the cache is a queue and
      a tick that has scanned its snapshot has left nothing of it that is fully marked and
      due. */
  lemma {:induction false} ScanIsThorough(start: Time, acts: seq<Action>)
    requires Undisturbed(Init(1, 0, start), acts) && NeverOutlasted(Init(1, 0, start), acts)
    ensures var s := Exec(Init(1, 0, start), acts);
            && IsQueue(s) && |s.fetchers| == 1
            && (s.cleaner.Scanning? && s.cleaner.i == |s.cleaner.snap| ==>
                  forall o :: o in s.list && o in s.cleaner.snap && Due(CellAt(s.heap, o), s.clock) ==>
                    Marks(s.fetchers[0], o) && s.fetchers[0].flagged)
  {
    RunIsThorough(start, acts);
    var s := Exec(Init(1, 0, start), acts);
    hide Exec;
    if s.cleaner.Scanning? && s.cleaner.i == |s.cleaner.snap| {
      forall o | o in s.list && o in s.cleaner.snap && Due(CellAt(s.heap, o), s.clock)
        ensures Marks(s.fetchers[0], o) && s.fetchers[0].flagged
      {
        LeftStays(s, o);
      }
    }
  }

  lemma LeftStays(s: State, o: nat)
    requires ThoroughInv(s) && s.cleaner.Scanning? && s.cleaner.i == |s.cleaner.snap|
    requires o in s.list && o in s.cleaner.snap && Due(CellAt(s.heap, o), s.clock)
    ensures Marks(s.fetchers[0], o) && s.fetchers[0].flagged
  {
    hide Inv, FlagsUpTo, TimesUpTo, BatchInv;
    LaterStays(s, |s.drops|, o);
    if !(Marks(s.fetchers[0], o) && s.fetchers[0].flagged) {
      TimedWhenFlagged(s, o);
      assert false;
    }
  }

  // ---------- Both conditions are needed ----------

  /** x and y are sent; nothing is marked yet. */
  lemma TwoSent(start: Time) returns (s: State)
    ensures Reaches(Init(1, 0, start), s)
    ensures s == Init(1, 0, start).(clock := s.clock, list := [0, 1], sent := [0, 1],
                                    fetchers := [Marking([0, 1], [0, 1], 0, false, 2)],
                                    heap := [Obj(X, false, ZERO_TIME, ZERO_TIME), Obj(Y, false, ZERO_TIME, ZERO_TIME)])
    ensures s.clock > RETENTION
  {
    Ids();
    var from := Init(1, 0, start);
    ReachesSelf(from);
    s := Later(from, from);
    ReachesNext(from, s, Accept(Delivery("x")));
    s := Next(s, Accept(Delivery("x")));
    assert s.list == [0] && s.heap == [Obj(X, false, ZERO_TIME, ZERO_TIME)] && IdOf(s.heap, 0) == X.id;
    ReachesNext(from, s, Accept(Delivery("y")));
    s := Next(s, Accept(Delivery("y")));
    assert s.list == [0, 1] && s.fetchers == [Waiting];
    s := HandlerSendsBoth(from, s);
  }

  /** The only handler adds an unrelayed event to its batch. */
  lemma CollectOne(s: State, snap: seq<nat>, i: nat, batch: seq<nat>, upto: nat)
    requires s.fetchers == [Collecting(snap, i, batch, upto)] && i < |snap| && !Flag(s.heap, snap[i])
    ensures Next(s, Fetch(0, true)) == s.(fetchers := [Collecting(snap, i + 1, batch + [snap[i]], upto)])
  {}

  lemma HandlerSendsBoth(from: State, s0: State) returns (s: State)
    requires Reaches(from, s0) && s0.fetchers == [Waiting] && s0.list == [0, 1] && s0.sent == []
    requires s0.heap == [Obj(X, false, ZERO_TIME, ZERO_TIME), Obj(Y, false, ZERO_TIME, ZERO_TIME)]
    ensures Reaches(from, s) && s == s0.(fetchers := [Marking([0, 1], [0, 1], 0, false, 2)], sent := [0, 1])
  {
    ReachesNext(from, s0, Fetch(0, true));
    s := Next(s0, Fetch(0, true));
    assert s == s0.(fetchers := [Collecting([0, 1], 0, [], 2)]);
    s := HandlerCollectsBoth(from, s);
    ReachesNext(from, s, Fetch(0, true));
    s := Next(s, Fetch(0, true));
    assert s == s0.(fetchers := [Ready([0, 1], 2)]);
    ReachesNext(from, s, Fetch(0, true));
    s := Next(s, Fetch(0, true));
    assert s == s0.(fetchers := [Sent([0, 1], 2)], sent := [0, 1]);
    ReachesNext(from, s, Fetch(0, true));
    s := Next(s, Fetch(0, true));
  }

  lemma HandlerCollectsBoth(from: State, s0: State) returns (s: State)
    requires Reaches(from, s0) && s0.fetchers == [Collecting([0, 1], 0, [], 2)]
    requires s0.heap == [Obj(X, false, ZERO_TIME, ZERO_TIME), Obj(Y, false, ZERO_TIME, ZERO_TIME)]
    ensures Reaches(from, s) && s == s0.(fetchers := [Collecting([0, 1], 2, [0, 1], 2)])
  {
    hide Next;
    ReachesNext(from, s0, Fetch(0, true));
    CollectOne(s0, [0, 1], 0, [], 2);
    s := Next(s0, Fetch(0, true));
    assert [] + [0] == [0] && [0] + [1] == [0, 1];
    ReachesNext(from, s, Fetch(0, true));
    CollectOne(s, [0, 1], 1, [0], 2);
    s := Next(s, Fetch(0, true));
  }

  /** x is marked; of the mark of y only the flag is set. */
  lemma SecondHalfMarked(start: Time) returns (s: State)
    ensures Reaches(Init(1, 0, start), s) && s.clock > RETENTION && s.cleaner == Resting && s.list == [0, 1]
              && s.drops == []
    ensures s.fetchers == [Marking([0, 1], [0, 1], 1, true, 2)]
    ensures s.heap == [Obj(X, true, s.clock, s.clock), Obj(Y, true, ZERO_TIME, s.clock)]
  {
    Ids();
    var from := Init(1, 0, start);
    s := TwoSent(start);
    ReachesNext(from, s, Fetch(0, true));
    s := Next(s, Fetch(0, true));
    assert s.heap == [FlaggedX(s.clock), Obj(Y, false, ZERO_TIME, ZERO_TIME)];
    ReachesNext(from, s, Fetch(0, true));
    s := Next(s, Fetch(0, true));
    assert s.heap == [Obj(X, true, s.clock, s.clock), Obj(Y, false, ZERO_TIME, ZERO_TIME)];
    ReachesNext(from, s, Fetch(0, true));
    s := Next(s, Fetch(0, true));
  }

  /** x and y were marked together, exactly two minutes ago; the handler is at rest. */
  lemma BothMarked(start: Time) returns (s: State, marked: Time)
    ensures Reaches(Init(1, 0, start), s) && s.cleaner == Resting && s.list == [0, 1] && s.drops == []
              && s.fetchers == [Waiting]
    ensures s.clock == marked + RETENTION
    ensures s.heap == [Obj(X, true, marked, marked), Obj(Y, true, marked, marked)]
  {
    Ids();
    var from := Init(1, 0, start);
    s := SecondHalfMarked(start);
    ReachesNext(from, s, Fetch(0, true));
    s := Next(s, Fetch(0, true));
    assert s.heap == [Obj(X, true, s.clock, s.clock), Obj(Y, true, s.clock, s.clock)];
    ReachesNext(from, s, Fetch(0, true));
    s := Next(s, Fetch(0, true));
    marked := s.clock;
    ReachesNext(from, s, Wait(RETENTION));
    s := Next(s, Wait(RETENTION));
  }

  /** The cleaner is about to remove y, with x still listed. */
  lemma SecondRemoved(s: State, t: Time)
    requires |s.heap| == 2 && s.heap[0].data == X && s.heap[1].data == Y && s.list == [0, 1] && s.drops == []
    requires s.cleaner == Scanning([0, 1], 1, Condemned(t))
    ensures Next(s, Clean).list == [0] && Next(s, Clean).drops == [Drop(1, t, s.clock)]
  {
    Ids();
    var h := s.heap;
    assert Keep(h, [0, 1], Y.id, 0) == [] && Keep(h, [0, 1], Y.id, 1) == [] + [0]
             && Keep(h, [0, 1], Y.id, 2) == [0] + [];
    assert Gone(h, [0, 1], Y.id, t, s.clock, 0) == [] && Gone(h, [0, 1], Y.id, t, s.clock, 1) == [] + [];
    assert Gone(h, [0, 1], Y.id, t, s.clock, 2) == [] + [Drop(1, t, s.clock)];
  }

  /** Without `NeverOvertaken`: in a reachable state with no mark in progress, a moment
      passes between two tests of one tick, and the later event goes while the earlier
      one, marked at the same time, stays. */
  lemma LaterGoesFirst(start: Time) returns (s: State)
    ensures Reaches(Init(1, 0, start), s) && s.fetchers == [Waiting] && s.list == [0, 1]
    ensures Exec(s, [Clean, Clean, Clean, Wait(1), Clean, Clean, Clean]).list == [0]
  {
    var marked: Time;
    s, marked := BothMarked(start);
    var acts, t := [], s;
    assert Exec(s, []) == s;
    RunSnoc(s, acts, Clean);
    acts, t := acts + [Clean], Next(t, Clean);
    RunSnoc(s, acts, Clean);
    acts, t := acts + [Clean], Next(t, Clean);
    RunSnoc(s, acts, Clean);
    acts, t := acts + [Clean], Next(t, Clean);
    assert t == s.(cleaner := Scanning([0, 1], 1, Untested));
    RunSnoc(s, acts, Wait(1));
    acts, t := acts + [Wait(1)], Next(t, Wait(1));
    RunSnoc(s, acts, Clean);
    acts, t := acts + [Clean], Next(t, Clean);
    RunSnoc(s, acts, Clean);
    acts, t := acts + [Clean], Next(t, Clean);
    assert t.cleaner == Scanning([0, 1], 1, Condemned(marked));
    SecondRemoved(t, marked);
    RunSnoc(s, acts, Clean);
    acts, t := acts + [Clean], Next(t, Clean);
    assert acts == [Clean, Clean, Clean, Wait(1), Clean, Clean, Clean];
  }

  /** Without `Undisturbed`: a tick at one instant meets y half marked and removes it,
      while x, marked before it, stays. */
  lemma TornReadBreaksQueue(start: Time) returns (s: State)
    ensures Reaches(Init(1, 0, start), s) && s.list == [0, 1]
    ensures Exec(s, [Clean, Clean, Clean, Clean, Clean, Clean]).list == [0]
  {
    s := SecondHalfMarked(start);
    var acts, t := [], s;
    assert Exec(s, []) == s;
    RunSnoc(s, acts, Clean);
    acts, t := acts + [Clean], Next(t, Clean);
    RunSnoc(s, acts, Clean);
    acts, t := acts + [Clean], Next(t, Clean);
    RunSnoc(s, acts, Clean);
    acts, t := acts + [Clean], Next(t, Clean);
    assert t == s.(cleaner := Scanning([0, 1], 1, Untested));
    RunSnoc(s, acts, Clean);
    acts, t := acts + [Clean], Next(t, Clean);
    RunSnoc(s, acts, Clean);
    acts, t := acts + [Clean], Next(t, Clean);
    assert t.cleaner == Scanning([0, 1], 1, Condemned(ZERO_TIME));
    SecondRemoved(t, ZERO_TIME);
    RunSnoc(s, acts, Clean);
    acts, t := acts + [Clean], Next(t, Clean);
    assert acts == [Clean, Clean, Clean, Clean, Clean, Clean];
  }
}

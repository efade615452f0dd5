/** Is a relayed event kept for two minutes after it became relayed? On every schedule only
    where nothing is ever relayed; with one stream handler, whenever no mark falls into the
    cleaner's reading of the same event. */
module Retention {
  import opened Events
  import opened Codec
  import opened CacheSpec
  import opened Protocol
  import opened Safety
  import opened RelayedOrder
  import opened SingleFetch
  import opened Exclusivity

  /** Every removed event had been relayed for more than two minutes. */
  ghost predicate Retained(s: State) {
    forall d :: 0 <= d < |s.drops| ==> s.drops[d].at > Since(s.heap, s.drops[d].obj) + RETENTION
  }

  ghost predicate AlwaysRetained(nf: nat, np: nat, start: Time) {
    forall acts :: Retained(Exec(Init(nf, np, start), acts))
  }

  // ---------- Schedules that go wrong ----------

  /** The event x was removed at the instant it became relayed. */
  ghost predicate DroppedAtOnce(s: State) {
    |s.heap| > 0 && s.heap[0].data == X && s.drops == [Drop(0, ZERO_TIME, s.heap[0].since)]
  }

  /** The torn read: the flag is set and the time not yet when the cleaner comes by. */
  lemma TornReadDropsAtOnce(nf: nat, np: nat, start: Time) returns (s: State)
    requires nf >= 1
    ensures Reaches(Init(nf, np, start), s) && DroppedAtOnce(s)
  {
    var from := Init(nf, np, start);
    s := FirstSend(nf, np, start);
    s := Later(from, s);
    s := HandlerFlags(from, s, 0);
    s := CleanerDropsX(from, s);
  }

  /** Writing flag and time in one go would not help. From some reachable state `s`, with
      the cleaner between its two reads, two consecutive steps of the handler are the
      whole mark, and the cleaner's next two drop the event. */
  lemma AtomicMarkDropsAtOnce(nf: nat, np: nat, start: Time) returns (s: State, marked: State)
    requires nf >= 1
    ensures Reaches(Init(nf, np, start), s) && s.heap == [Obj(X, false, ZERO_TIME, ZERO_TIME)]
    ensures marked == Next(Next(s, Fetch(0, true)), Fetch(0, true)) && marked.heap == [Obj(X, true, s.clock, s.clock)]
    ensures DroppedAtOnce(Next(Next(marked, Clean), Clean))
  {
    var from := Init(nf, np, start);
    s := FirstSend(nf, np, start);
    s := Later(from, s);
    ReachesNext(from, s, Fetch(0, true));
    s := Next(s, Fetch(0, true));
    assert s.fetchers[0] == Marking([0], [0], 0, false, 1);
    ReachesNext(from, s, Clean);
    s := Next(s, Clean);
    ReachesNext(from, s, Clean);
    s := Next(s, Clean);
    assert s.cleaner == Scanning([0], 0, TimeRead(ZERO_TIME));
    var flagged := Next(s, Fetch(0, true));
    assert flagged.fetchers[0] == Marking([0], [0], 0, true, 1) && flagged.heap == [FlaggedX(s.clock)];
    marked := Next(flagged, Fetch(0, true));
    var condemned := Next(marked, Clean);
    assert condemned.cleaner == Scanning([0], 0, Condemned(ZERO_TIME));
    RemoveOnly(condemned.heap, ZERO_TIME, condemned.clock);
  }

  lemma RemoveOnly(heap: seq<Obj>, seen: Time, at: Time)
    requires heap != []
    ensures Keep(heap, [0], IdOf(heap, 0), 1) == []
    ensures Gone(heap, [0], IdOf(heap, 0), seen, at, 1) == [Drop(0, seen, at)]
  {
    assert Keep(heap, [0], IdOf(heap, 0), 0) == [] && Gone(heap, [0], IdOf(heap, 0), seen, at, 0) == [];
  }

  /** Push relay never sets the time, so its events go on the cleaner's next visit. */
  lemma PushedDropsAtOnce(nf: nat, np: nat, start: Time) returns (s: State)
    requires np >= 1
    ensures Reaches(Init(nf, np, start), s) && DroppedAtOnce(s)
  {
    Ids();
    var from := Init(nf, np, start);
    ReachesSelf(from);
    s := Later(from, from);
    ReachesNext(from, s, Accept(Delivery("x")));
    s := Next(s, Accept(Delivery("x")));
    assert s.list == [0] && s.heap == [Obj(X, false, ZERO_TIME, ZERO_TIME)];
    s := PusherMarks(from, s);
    s := CleanerDropsX(from, s);
  }

  /** Retention holds on every schedule exactly in a deployment that relays nothing. */
  lemma RetainedIffNoConsumer(nf: nat, np: nat, start: Time)
    ensures AlwaysRetained(nf, np, start) <==> nf == 0 && np == 0
  {
    if nf == 0 && np == 0 {
      forall acts ensures Retained(Exec(Init(nf, np, start), acts)) {
        NothingRelayed(start, acts);
      }
    } else {
      var s: State;
      if nf >= 1 { s := TornReadDropsAtOnce(nf, np, start); } else { s := PushedDropsAtOnce(nf, np, start); }
      var acts :| Exec(Init(nf, np, start), acts) == s;
      assert s.drops[0].at == Since(s.heap, 0);
    }
  }

  lemma {:induction false} NothingRelayed(start: Time, acts: seq<Action>)
    ensures var s := Exec(Init(0, 0, start), acts);
            && Inv(s) && s.fetchers == [] && s.pushers == [] && s.drops == []
            && forall o :: 0 <= o < |s.heap| ==> !s.heap[o].relayed
  {
    InitInv(0, 0, start);
    if acts == [] {
    } else {
      NothingRelayed(start, acts[..|acts|-1]);
      QuietStep(Exec(Init(0, 0, start), acts[..|acts|-1]), acts[|acts|-1]);
    }
  }

  lemma QuietStep(s: State, a: Action)
    requires Inv(s) && s.fetchers == [] && s.pushers == [] && s.drops == []
    requires forall o :: 0 <= o < |s.heap| ==> !s.heap[o].relayed
    ensures var s' := Next(s, a);
            && Inv(s') && s'.fetchers == [] && s'.pushers == [] && s'.drops == []
            && forall o :: 0 <= o < |s'.heap| ==> !s'.heap[o].relayed
  {
    hide Inv, Holds, Keep, Gone, EventOf, WellFormed;
    NextKeeps(s, a);
    if a.Clean? { NothingCondemned(s); }
  }

  lemma NothingCondemned(s: State)
    requires Inv(s) && forall o :: 0 <= o < |s.heap| ==> !s.heap[o].relayed
    ensures s.cleaner.Scanning? ==> !s.cleaner.stage.Condemned?
  {
    hide ListInv, FetcherInv, PusherInv;
  }

  // ---------- What one stream handler guarantees ----------

  /** The handler's next write goes to this event: its flag, or when that is done its time. */
  ghost predicate Marks(f: Fetcher, o: nat) {
    f.Marking? && f.j < |f.batch| && f.batch[f.j] == o
  }

  /** The two ways a mark falls into the cleaner's reading of the same event: the cleaner
      reads the time with only the flag set, or the flag is set after the cleaner read the
      time and before it reads the flag. */
  ghost predicate Disturbs(s: State, a: Action) {
    && |s.fetchers| == 1 && s.cleaner.Scanning? && s.cleaner.i < |s.cleaner.snap|
    && var f := s.fetchers[0];
       && Marks(f, s.cleaner.snap[s.cleaner.i])
       && ((a.Clean? && s.cleaner.stage.Untested? && f.flagged)
           || (a.Fetch? && a.k == 0 && s.cleaner.stage.TimeRead? && !f.flagged))
  }

  ghost predicate Undisturbed(s: State, acts: seq<Action>) {
    forall n :: 0 <= n < |acts| ==> !Disturbs(Exec(s, acts[..n]), acts[n])
  }

  lemma UndisturbedFront(s: State, acts: seq<Action>)
    requires Undisturbed(s, acts) && acts != []
    ensures Undisturbed(s, acts[..|acts|-1]) && !Disturbs(Exec(s, acts[..|acts|-1]), acts[|acts|-1])
  {
    var front := acts[..|acts|-1];
    forall n | 0 <= n < |front| ensures !Disturbs(Exec(s, front[..n]), front[n]) {
      assert front[..n] == acts[..n];
    }
  }

  /** A time read from an event that is relayed is no earlier than its flag. */
  ghost predicate TrueTime(heap: seq<Obj>, o: nat, t: Time) {
    Flag(heap, o) ==> Since(heap, o) <= t
  }

  ghost predicate ReadTrue(s: State) {
    && OneStream(s) && Retained(s)
    && (s.cleaner.Scanning? && s.cleaner.i < |s.cleaner.snap| && !s.cleaner.stage.Untested? ==>
          TrueTime(s.heap, s.cleaner.snap[s.cleaner.i], s.cleaner.stage.t))
  }

  /** Removal times and what the cleaner read stay valid while objects only grow, unless
      the flag of the event under test is set. */
  lemma GrowthStaysTrue(s: State, s': State)
    requires ReadTrue(s) && OneStream(s') && Grows(s.heap, s'.heap) && s'.drops == s.drops && s'.cleaner == s.cleaner
    requires s.cleaner.Scanning? && s.cleaner.i < |s.cleaner.snap| && !s.cleaner.stage.Untested? ==>
               var o := s.cleaner.snap[s.cleaner.i]; Flag(s'.heap, o) ==> Flag(s.heap, o)
    ensures ReadTrue(s')
  {
    assert forall d :: 0 <= d < |s.drops| ==> Flag(s.heap, s.drops[d].obj);
    hide OneStream, Inv;
  }

  lemma FetchStaysTrue(s: State, ok: bool)
    requires ReadTrue(s) && !Disturbs(s, Fetch(0, ok))
    ensures ReadTrue(FetchStep(s, 0, ok))
  {
    var s', f := FetchStep(s, 0, ok), s.fetchers[0];
    FetchOneStream(s, ok);
    FetcherMoves(s, 0, ok);
    if s.cleaner.Scanning? && s.cleaner.i < |s.cleaner.snap| && !s.cleaner.stage.Untested? {
      var o := s.cleaner.snap[s.cleaner.i];
      if Flag(s'.heap, o) && !Flag(s.heap, o) {
        assert s.cleaner.stage.TimeRead?;
        FlagSetBy(s, ok, o);
      }
    }
    hide OneStream, FetchStep;
    GrowthStaysTrue(s, s');
  }

  /** Only the write that marks it sets an event's flag. */
  lemma FlagSetBy(s: State, ok: bool, o: nat)
    requires OneStream(s) && Flag(FetchStep(s, 0, ok).heap, o) && !Flag(s.heap, o)
    ensures Marks(s.fetchers[0], o) && !s.fetchers[0].flagged
  {
    var f := s.fetchers[0];
    if f.Marking? && f.j < |f.batch| {
      MarkHits(s);
      hide Inv, FlagId, StampId;
    }
  }

  lemma CleanStaysTrue(s: State)
    requires ReadTrue(s) && !Disturbs(s, Clean)
    ensures ReadTrue(CleanStep(s))
  {
    hide OneStream, Inv, Keep, Gone;
    StreamIsSafe(s);
    NextOneStream(s, Clean);
    var c := s.cleaner;
    if c.Scanning? && c.i < |c.snap| {
      if c.stage.Condemned? {
        RemovalStaysTrue(s);
      } else if c.stage.Untested? {
        TimeReadTrue(s);
      }
    }
  }

  lemma RemovalStaysTrue(s: State)
    requires ReadTrue(s) && s.cleaner.Scanning? && s.cleaner.i < |s.cleaner.snap| && s.cleaner.stage.Condemned?
    ensures Retained(CleanStep(s)) && CleanStep(s).cleaner == Scanning(s.cleaner.snap, s.cleaner.i + 1, Untested)
  {
    hide OneStream, Inv, CleanStep;
    StreamIsSafe(s);
    CondemnedIsDue(s);
    var k := RemovalAt(s);
  }

  lemma CondemnedIsDue(s: State)
    requires Inv(s) && s.cleaner.Scanning? && s.cleaner.stage.Condemned?
    ensures s.clock > s.cleaner.stage.t + RETENTION && Flag(s.heap, s.cleaner.snap[s.cleaner.i])
  {}

  lemma TimeReadTrue(s: State)
    requires OneStream(s) && s.cleaner.Scanning? && s.cleaner.i < |s.cleaner.snap|
    requires s.cleaner.stage.Untested? && !Disturbs(s, Clean)
    ensures var o := s.cleaner.snap[s.cleaner.i]; TrueTime(s.heap, o, Stamp(s.heap, o))
  {
    var o, f, n := s.cleaner.snap[s.cleaner.i], s.fetchers[0], |s.sent|;
    assert f.Marking? && f.flagged ==> f.batch[f.j] == Timed(f, n);
    assert Flag(s.heap, o) ==> o < Timed(f, n);
  }

  lemma StepStaysTrue(s: State, a: Action)
    requires ReadTrue(s) && !Disturbs(s, a)
    ensures ReadTrue(Next(s, a))
  {
    match a
    case Accept(source) =>
      NextOneStream(s, a);
      NextKeeps(s, a);
      IngestFlags(s, a);
      hide OneStream, Next;
      GrowthStaysTrue(s, Next(s, a));
    case Wait(d) =>
      NextOneStream(s, a);
      hide OneStream;
      GrowthStaysTrue(s, Next(s, a));
    case Clean => CleanStaysTrue(s);
    case Fetch(k, ok) => if k == 0 { FetchStaysTrue(s, ok); }
    case Push(k) =>
  }

  lemma IngestFlags(s: State, a: Action)
    requires OneStream(s) && a.Accept?
    ensures var s' := Next(s, a);
            && s'.drops == s.drops && s'.cleaner == s.cleaner
            && forall o :: Flag(s'.heap, o) ==> Flag(s.heap, o)
  {
    hide OneStream;
  }

  lemma {:induction false} RunStaysTrue(start: Time, acts: seq<Action>)
    requires Undisturbed(Init(1, 0, start), acts)
    ensures ReadTrue(Exec(Init(1, 0, start), acts))
  {
    if acts == [] {
      InitOneStream(start);
    } else {
      UndisturbedFront(Init(1, 0, start), acts);
      RunStaysTrue(start, acts[..|acts|-1]);
      StepStaysTrue(Exec(Init(1, 0, start), acts[..|acts|-1]), acts[|acts|-1]);
    }
  }

  /** With one stream handler, every removal comes more than two minutes after the event
      became relayed, on every schedule in which no mark falls into the cleaner's reading
      of the same event. Neither way of falling into it can be allowed:
      `TornReadDropsAtOnce` uses only the first, `AtomicMarkDropsAtOnce` only the second. */
  lemma {:induction false} RetainedWhenUndisturbed(start: Time, acts: seq<Action>)
    requires Undisturbed(Init(1, 0, start), acts)
    ensures Retained(Exec(Init(1, 0, start), acts))
  {
    RunStaysTrue(start, acts);
  }

  // ---------- Every schedule of one stream handler ----------

  ghost predicate ReadZeroOrTrue(s: State) {
    && (forall d :: 0 <= d < |s.drops| && s.drops[d].seen != ZERO_TIME ==>
          s.drops[d].at > Since(s.heap, s.drops[d].obj) + RETENTION)
    && (s.cleaner.Scanning? && s.cleaner.i < |s.cleaner.snap| && !s.cleaner.stage.Untested? ==>
          ZeroOrTrue(s.heap, s.cleaner.snap[s.cleaner.i], s.cleaner.stage.t))
  }

  ghost predicate ZeroOrTrue(heap: seq<Obj>, o: nat, t: Time) {
    t == ZERO_TIME || (Flag(heap, o) && Since(heap, o) <= t)
  }

  lemma StampZeroOrTrue(s: State, o: nat)
    requires OneStream(s)
    ensures ZeroOrTrue(s.heap, o, Stamp(s.heap, o))
  {}

  lemma StepZeroOrTrue(s: State, a: Action)
    requires OneStream(s) && ReadZeroOrTrue(s)
    ensures ReadZeroOrTrue(Next(s, a))
  {
    NextKeeps(s, a);
    var c := s.cleaner;
    if a.Clean? {
      CleanZeroOrTrue(s);
    } else {
      assert forall d :: 0 <= d < |s.drops| ==> Flag(s.heap, s.drops[d].obj);
      assert Next(s, a).drops == s.drops && Next(s, a).cleaner == c;
      hide OneStream, Next, Inv;
    }
  }

  lemma CleanZeroOrTrue(s: State)
    requires OneStream(s) && ReadZeroOrTrue(s)
    ensures ReadZeroOrTrue(CleanStep(s))
  {
    var c := s.cleaner;
    if c.Scanning? && c.i < |c.snap| && c.stage.Condemned? {
      var k := RemovalAt(s);
      assert s.clock > c.stage.t + RETENTION;
      hide OneStream, CleanStep;
    } else {
      if c.Scanning? && c.i < |c.snap| { StampZeroOrTrue(s, c.snap[c.i]); }
      hide OneStream;
    }
  }

  /** Even where marks disturb the cleaner, a removal for which the cleaner read a time
      other than zero comes more than two minutes after the event became relayed. */
  lemma {:induction false} RetainedUnlessReadZero(start: Time, acts: seq<Action>)
    ensures var s := Exec(Init(1, 0, start), acts);
            && OneStream(s) && ReadZeroOrTrue(s)
            && forall d :: 0 <= d < |s.drops| && s.drops[d].seen != ZERO_TIME ==>
                 s.drops[d].at > Since(s.heap, s.drops[d].obj) + RETENTION
  {
    InitOneStream(start);
    RunOneStream(Init(1, 0, start), acts);
    if acts == [] {
    } else {
      RetainedUnlessReadZero(start, acts[..|acts|-1]);
      StepZeroOrTrue(Exec(Init(1, 0, start), acts[..|acts|-1]), acts[|acts|-1]);
    }
  }
}

/** Caches that only push relay serves: what it has marked goes on the cleaner's next
    visit, because it never sets a time. */
module PushDrain {
  import opened Events
  import opened CacheSpec
  import opened Protocol
  import opened Safety
  import opened Drain

  /** Without stream handlers no time is ever set, nor read other than zero. */
  ghost predicate Untimed(s: State) {
    && Inv(s) && s.fetchers == []
    && (forall o :: 0 <= o < |s.heap| ==> s.heap[o].time == ZERO_TIME)
    && (s.cleaner.Scanning? && !s.cleaner.stage.Untested? ==> s.cleaner.stage.t == ZERO_TIME)
  }

  lemma StepUntimed(s: State, a: Action)
    requires Untimed(s)
    ensures Untimed(Next(s, a)) && Next(s, a).clock >= s.clock
  {
    hide Inv, Keep, Gone, Holds, EventOf, WellFormed;
    NextKeeps(s, a);
  }

  lemma {:induction false} RunUntimed(np: nat, start: Time, acts: seq<Action>)
    ensures Untimed(Exec(Init(0, np, start), acts))
  {
    InitInv(0, np, start);
    if acts == [] {
    } else {
      RunUntimed(np, start, acts[..|acts|-1]);
      StepUntimed(Exec(Init(0, np, start), acts[..|acts|-1]), acts[|acts|-1]);
    }
  }

  /** A cleaner visit is on, or over, that found the objects as `found`: what was relayed
      there and is still listed is still to be scanned. */
  ghost predicate Leaving(found: seq<Obj>, s: State) {
    && Untimed(s) && s.clock > RETENTION && Grows(found, s.heap)
    && match s.cleaner
       case Resting => NoneRelayed(found, s.list)
       case Scanning(snap, i, stage) => forall o :: o in s.list && Flag(found, o) ==> ToScan(snap, i, o)
  }

  ghost predicate NoneRelayed(found: seq<Obj>, list: seq<nat>) {
    forall o :: o in list ==> !Flag(found, o)
  }

  lemma ScanOn(found: seq<Obj>, list: seq<nat>, snap: seq<nat>, i: nat)
    requires forall o :: o in list && Flag(found, o) ==> ToScan(snap, i, o)
    requires i < |snap| && (Flag(found, snap[i]) ==> snap[i] !in list)
    ensures forall o :: o in list && Flag(found, o) ==> ToScan(snap, i + 1, o)
  {
    forall o | o in list && Flag(found, o) ensures ToScan(snap, i + 1, o) {
      var p :| i <= p < |snap| && snap[p] == o;
      assert p != i;
    }
  }

  lemma VisitBegins(s: State)
    requires Untimed(s) && s.clock > RETENTION && s.cleaner.Resting?
    ensures Leaving(s.heap, Next(s, Clean))
  {
    hide Inv;
    StepUntimed(s, Clean);
    assert forall o :: o in s.list ==> exists p :: 0 <= p < |s.list| && s.list[p] == o;
  }

  lemma RelayedIsDue(found: seq<Obj>, s: State)
    requires Leaving(found, s) && s.cleaner.Scanning? && s.cleaner.i < |s.cleaner.snap|
    requires s.cleaner.stage.TimeRead? && Flag(found, s.cleaner.snap[s.cleaner.i])
    ensures Flag(s.heap, s.cleaner.snap[s.cleaner.i]) && s.clock > s.cleaner.stage.t + RETENTION
  {
    hide Inv;
  }

  lemma VisitTests(found: seq<Obj>, s: State)
    requires Leaving(found, s) && s.cleaner.Scanning? && s.cleaner.i < |s.cleaner.snap| && s.cleaner.stage.TimeRead?
    ensures Leaving(found, CleanStep(s))
  {
    hide Inv, ToScan;
    StepUntimed(s, Clean);
    if Flag(found, s.cleaner.snap[s.cleaner.i]) {
      RelayedIsDue(found, s);
    } else {
      ScanOn(found, s.list, s.cleaner.snap, s.cleaner.i);
    }
  }

  lemma VisitRemoves(found: seq<Obj>, s: State)
    requires Leaving(found, s) && s.cleaner.Scanning? && s.cleaner.i < |s.cleaner.snap| && s.cleaner.stage.Condemned?
    ensures Leaving(found, CleanStep(s))
  {
    hide Inv, ToScan, Keep, Gone;
    StepUntimed(s, Clean);
    CondemnedIsDropped(s);
    ScanOn(found, CleanStep(s).list, s.cleaner.snap, s.cleaner.i);
  }

  /** The steps that read a time, end the visit or begin another. */
  lemma VisitReads(found: seq<Obj>, s: State)
    requires Leaving(found, s)
    requires s.cleaner.Scanning? && s.cleaner.i < |s.cleaner.snap| ==> s.cleaner.stage.Untested?
    ensures Leaving(found, CleanStep(s))
  {
    hide Inv, Keep, Gone;
    StepUntimed(s, Clean);
    assert forall o :: o in s.list ==> exists p :: 0 <= p < |s.list| && s.list[p] == o;
  }

  lemma StepLeaves(found: seq<Obj>, s: State, a: Action)
    requires Leaving(found, s)
    ensures Leaving(found, Next(s, a))
  {
    hide Inv, ToScan, Keep, Gone, Holds, EventOf, WellFormed, CleanStep;
    if a.Clean? {
      var c := s.cleaner;
      if c.Scanning? && c.i < |c.snap| && c.stage.TimeRead? {
        VisitTests(found, s);
      } else if c.Scanning? && c.i < |c.snap| && c.stage.Condemned? {
        VisitRemoves(found, s);
      } else {
        VisitReads(found, s);
      }
    } else {
      NextKeeps(s, a);
      StepUntimed(s, a);
      NothingTaken(s, a);
    }
  }

  /** Only the cleaner takes events off the list, and what comes in is new. */
  lemma NothingTaken(s: State, a: Action)
    requires s.fetchers == [] && !a.Clean?
    ensures var s' := Next(s, a);
            && s'.cleaner == s.cleaner && s'.clock >= s.clock
            && forall o :: o in s'.list ==> o in s.list || o == |s.heap|
  {}

  lemma {:induction false} RunLeaves(found: seq<Obj>, s: State, acts: seq<Action>)
    requires Leaving(found, s)
    ensures Leaving(found, Exec(s, acts))
  {
    if acts == [] {
    } else {
      RunLeaves(found, s, acts[..|acts|-1]);
      StepLeaves(found, Exec(s, acts[..|acts|-1]), acts[|acts|-1]);
    }
  }

  /** With any number of push-relay loops and no stream handler, from any reachable state
      with the cleaner at rest: when the cleaner's next visit is over, with ingest, push
      relay and waits anywhere in it, nothing is listed that was relayed when it began. */
  lemma {:induction false} RelayedGoOnNextVisit(np: nat, start: Time, acts: seq<Action>, visit: seq<Action>)
    requires var s := Exec(Init(0, np, start), acts);
             && s.cleaner.Resting? && s.clock > RETENTION
             && Exec(Next(s, Clean), visit).cleaner.Resting?
    ensures var s := Exec(Init(0, np, start), acts);
            NoneRelayed(s.heap, Exec(Next(s, Clean), visit).list)
  {
    var s := Exec(Init(0, np, start), acts);
    RunUntimed(np, start, acts);
    VisitBegins(s);
    RunLeaves(s.heap, Next(s, Clean), visit);
  }
}

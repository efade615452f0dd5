/** The cleaner's tick, step by step, with ingest and the passing of time anywhere in it:
    reading, testing and removing one event at a time by ID comes to one filter of the
    list, followed by what came in. */
module CleanerTick {
  import opened Events
  import opened CacheSpec
  import opened Protocol

  /** The list as cells. */
  ghost function View(s: State): seq<Cell<nat>> {
    seq(|s.list|, i requires 0 <= i < |s.list| => CellAt(s.heap, s.list[i]))
  }

  ghost function CellAt(heap: seq<Obj>, o: nat): Cell<nat> {
    Cell(o, IdOf(heap, o), Flag(heap, o), Stamp(heap, o))
  }

  /** No stream handler and no push-relay loop moves. */
  ghost predicate Unmarked(acts: seq<Action>) {
    forall i :: 0 <= i < |acts| ==> acts[i].Clean? || acts[i].Wait? || acts[i].Accept?
  }

  /** The cleaner starts and ends at rest and does not rest in between. */
  ghost predicate OneTick(s: State, acts: seq<Action>) {
    && acts != [] && acts[0].Clean? && s.cleaner.Resting? && Exec(s, acts).cleaner.Resting?
    && forall n :: 1 <= n < |acts| ==> Exec(s, acts[..n]).cleaner.Scanning?
  }

  ghost function Names(cs: seq<Cell<nat>>): seq<nat> {
    seq(|cs|, i requires 0 <= i < |cs| => cs[i].obj)
  }

  /** The list when the first `i` events of the snapshot have been dealt with. */
  ghost function ScannedTo(s: State, at: seq<Time>, i: nat): seq<nat>
    requires i <= |s.list| && i <= |at|
  {
    Names(Kept(View(s), at, i)) + s.list[i..]
  }

  ghost predicate Readings(at: seq<Time>, from: Time, to: Time) {
    from <= to && NonDecreasing(at) && forall i :: 0 <= i < |at| ==> from <= at[i] <= to
  }

  /** What has been accepted since, in order. */
  ghost function Newer(s0: State, s: State): seq<nat>
    requires |s0.heap| <= |s.heap|
  {
    seq(|s.heap| - |s0.heap|, i requires 0 <= i => |s0.heap| + i)
  }

  /** Objects were only added, and none of the added ones is marked. */
  ghost predicate OnlyAccepted(h: seq<Obj>, h': seq<Obj>) {
    h <= h' && forall o :: |h| <= o < |h'| ==> !h'[o].relayed && h'[o].time == ZERO_TIME
  }

  /** In mid-tick; `at` holds the clock readings of the tests made so far. */
  ghost predicate InTick(s0: State, s: State, at: seq<Time>) {
    && Inv(s) && Below(s0.list, |s0.heap|) && OnlyAccepted(s0.heap, s.heap)
    && s.cleaner.Scanning? && s.cleaner.snap == s0.list
    && var i, stage := s.cleaner.i, s.cleaner.stage;
       && i <= |s0.list| && |at| == i + (if stage.Condemned? then 1 else 0)
       && Readings(at, s0.clock, s.clock)
       && s.list == ScannedTo(s0, at, i) + Newer(s0, s)
       && (!stage.Untested? ==> i < |s0.list| && stage.t == Stamp(s0.heap, s0.list[i]))
       && (stage.Condemned? ==> Due(View(s0)[i], at[i]))
  }

  lemma KeptNext(s: State, at: seq<Time>, i: nat)
    requires i < |s.list| && i < |at|
    ensures ScannedTo(s, at, i) == Names(Kept(View(s), at, i)) + [s.list[i]] + s.list[i+1..]
    ensures ScannedTo(s, at, i + 1) ==
            Names(Kept(View(s), at, i)) + (if Due(View(s)[i], at[i]) then [] else [s.list[i]]) + s.list[i+1..]
  {
    assert s.list[i..] == [s.list[i]] + s.list[i+1..];
  }

  lemma OmitAt(list: seq<nat>, k: nat, a: seq<nat>, x: nat, b: seq<nat>, c: seq<nat>)
    requires Increasing(list) && k < |list| && list[k] == x && list == a + [x] + b + c
    ensures Omit(list, k) == a + b + c
  {
    assert list[|a|] == x;
  }

  /** Removing by ID in mid-scan takes out the event under test and nothing else. */
  lemma DropTested(s0: State, s: State, at: seq<Time>)
    requires InTick(s0, s, at) && s.cleaner.stage.Condemned?
    ensures var i := s.cleaner.i;
            CleanStep(s) == s.(list := ScannedTo(s0, at, i + 1) + Newer(s0, s), drops := CleanStep(s).drops,
                               cleaner := Scanning(s0.list, i + 1, Untested))
  {
    hide Inv, Readings, ScannedTo, CleanStep, Kept, Due, Omit, Increasing, Names, Newer, OnlyAccepted;
    var i := s.cleaner.i;
    Grew(s0.heap, s.heap);
    ListIncreases(s);
    var k := RemovalAt(s);
    KeptNext(s0, at, i);
    OmitAt(s.list, k, Names(Kept(View(s0), at, i)), s0.list[i], s0.list[i+1..], Newer(s0, s));
  }

  lemma ListIncreases(s: State)
    requires Inv(s)
    ensures Increasing(s.list) && Below(s.list, |s.heap|)
  {}

  lemma ReadingsNext(at: seq<Time>, from: Time, to: Time)
    requires Readings(at, from, to)
    ensures Readings(at + [to], from, to)
  {}

  /** What is in the snapshot reads as it did. */
  lemma StillReads(s0: State, s: State, i: nat)
    requires Below(s0.list, |s0.heap|) && OnlyAccepted(s0.heap, s.heap) && i < |s0.list|
    ensures View(s0)[i] == CellAt(s.heap, s0.list[i])
  {}

  lemma Test(s0: State, s: State, at: seq<Time>)
    requires InTick(s0, s, at) && s.cleaner.stage.TimeRead?
    ensures InTick(s0, CleanStep(s), at + [s.clock])
  {
    hide Inv, Kept, Names, Readings, ScannedTo, Newer, OnlyAccepted;
    var i, at' := s.cleaner.i, at + [s.clock];
    Grew(s0.heap, s.heap);
    CleanKeeps(s);
    StillReads(s0, s, i);
    ReadingsNext(at, s0.clock, s.clock);
    SameScan(s0, at, at', i);
    KeptNext(s0, at', i);
    SameNewer(s0, s, CleanStep(s));
  }

  lemma Grew(h: seq<Obj>, h': seq<Obj>)
    requires OnlyAccepted(h, h')
    ensures |h| <= |h'|
  {}

  lemma SameNewer(s0: State, s: State, s': State)
    requires |s0.heap| <= |s.heap| == |s'.heap|
    ensures Newer(s0, s') == Newer(s0, s)
  {}

  lemma SameScan(s: State, at: seq<Time>, at': seq<Time>, i: nat)
    requires i == |at| <= |s.list| && |at'| > i && at'[..i] == at
    ensures ScannedTo(s, at', i) == ScannedTo(s, at, i)
  {
    forall h | 0 <= h < i ensures at[h] == at'[h] { assert at'[..i][h] == at'[h]; }
    KeptReadsFirst(View(s), at, at', i);
  }

  /** A step of the cleaner that does not end the tick. */
  lemma TickStep(s0: State, s: State, at: seq<Time>)
    requires InTick(s0, s, at) && s.cleaner.i < |s0.list|
    ensures InTick(s0, CleanStep(s), if s.cleaner.stage.TimeRead? then at + [s.clock] else at)
  {
    hide Inv, ScannedTo, Readings, Keep, Gone, OnlyAccepted, Newer;
    Grew(s0.heap, s.heap);
    CleanKeeps(s);
    StillReads(s0, s, s.cleaner.i);
    if s.cleaner.stage.TimeRead? {
      Test(s0, s, at);
    } else if s.cleaner.stage.Condemned? {
      DropTested(s0, s, at);
      SameNewer(s0, s, CleanStep(s));
    } else {
      SameNewer(s0, s, CleanStep(s));
    }
  }

  /** A step of ingest or of the clock. */
  lemma TickWaits(s0: State, s: State, at: seq<Time>, a: Action)
    requires InTick(s0, s, at) && (a.Wait? || a.Accept?)
    ensures InTick(s0, Next(s, a), at)
  {
    hide Inv, ScannedTo, View, Holds, EventOf, WellFormed;
    NextKeeps(s, a);
    var s' := Next(s, a);
    if s'.heap != s.heap {
      assert Newer(s0, s') == Newer(s0, s) + [|s.heap|];
    } else {
      SameNewer(s0, s, s');
    }
  }

  lemma {:induction false} TickRuns(s: State, acts: seq<Action>) returns (at: seq<Time>)
    requires Inv(s) && s.cleaner.Resting? && Unmarked(acts) && acts != [] && acts[0].Clean?
    requires forall n :: 1 <= n <= |acts| ==> Exec(s, acts[..n]).cleaner.Scanning?
    ensures InTick(s, Exec(s, acts), at)
  {
    var n := |acts| - 1;
    assert acts[..|acts|] == acts;
    if n == 0 {
      at := [];
      assert Exec(s, acts[..0]) == s;
      TickBegins(s);
    } else {
      hide InTick, Inv;
      forall m | 1 <= m <= n ensures Exec(s, acts[..n][..m]).cleaner.Scanning? { assert acts[..n][..m] == acts[..m]; }
      at := TickRuns(s, acts[..n]);
      var before := Exec(s, acts[..n]);
      if acts[n].Clean? {
        NotOver(s, before, at);
        TickStep(s, before, at);
        if before.cleaner.stage.TimeRead? { at := at + [before.clock]; }
      } else {
        TickWaits(s, before, at, acts[n]);
      }
    }
  }

  lemma TickBegins(s: State)
    requires Inv(s) && s.cleaner.Resting?
    ensures InTick(s, CleanStep(s), [])
  {
    CleanKeeps(s);
    ListIncreases(s);
    hide Inv;
    assert Newer(s, CleanStep(s)) == [];
    assert Names(Kept(View(s), [], 0)) == [] && s.list[0..] == s.list;
  }

  lemma NotOver(s0: State, s: State, at: seq<Time>)
    requires InTick(s0, s, at) && CleanStep(s).cleaner.Scanning?
    ensures s.cleaner.i < |s0.list|
  {
    hide Inv;
  }

  /** The cells of what came in. */
  ghost function NewCells(s0: State, s: State): seq<Cell<nat>>
    requires |s0.heap| <= |s.heap|
  {
    seq(|s.heap| - |s0.heap|, i requires 0 <= i => CellAt(s.heap, |s0.heap| + i))
  }

  /** A whole tick of the machine's cleaner, with waits and ingest anywhere in it, leaves
      the filter that `Ticks.CleanRepository` is proved against, followed by what came in,
      in accept order and unrelayed; `at` are the clock readings it made. */
  lemma {:induction false} TickIsFilter(s: State, acts: seq<Action>) returns (at: seq<Time>)
    requires Inv(s) && Unmarked(acts) && OneTick(s, acts)
    ensures var s' := Exec(s, acts);
            && |at| == |s.list| && Readings(at, s.clock, s'.clock) && OnlyAccepted(s.heap, s'.heap)
            && View(s') == Kept(View(s), at, |s.list|) + NewCells(s, s')
  {
    var n := |acts| - 1;
    var before := Exec(s, acts[..n]);
    assert Exec(s, acts[..0]) == s;
    assert n > 0;
    forall m | 1 <= m <= n ensures Exec(s, acts[..n][..m]).cleaner.Scanning? { assert acts[..n][..m] == acts[..m]; }
    at := TickRuns(s, acts[..n]);
    assert acts[n].Clean?;
    TickEnds(s, before, at);
  }

  lemma TickEnds(s: State, before: State, at: seq<Time>)
    requires InTick(s, before, at) && CleanStep(before).cleaner.Resting?
    ensures var s' := CleanStep(before);
            && |at| == |s.list| && Readings(at, s.clock, s'.clock) && OnlyAccepted(s.heap, s'.heap)
            && View(s') == Kept(View(s), at, |s.list|) + NewCells(s, s')
  {
    hide Inv, Readings;
    assert before.cleaner.i >= |s.list|;
    assert s.list[|s.list|..] == [];
    ViewOfKept(s, at, CleanStep(before));
  }

  lemma ViewOfKept(s: State, at: seq<Time>, s': State)
    requires |at| == |s.list| && Below(s.list, |s.heap|) && OnlyAccepted(s.heap, s'.heap)
    requires s'.list == ScannedTo(s, at, |at|) + Newer(s, s')
    ensures View(s') == Kept(View(s), at, |at|) + NewCells(s, s')
  {
    hide Kept, CellAt, OnlyAccepted, Below;
    Grew(s.heap, s'.heap);
    KeptMembers(View(s), at, |at|);
    var kept := Kept(View(s), at, |at|);
    assert s'.list == Names(kept) + Newer(s, s') by { assert s.list[|at|..] == []; }
    forall k | 0 <= k < |kept| ensures CellAt(s'.heap, kept[k].obj) == kept[k] {
      var i :| 0 <= i < |at| && kept[k] == View(s)[i];
      NamedCell(s, s', i);
    }
  }

  lemma NamedCell(s: State, s': State, i: nat)
    requires Below(s.list, |s.heap|) && OnlyAccepted(s.heap, s'.heap) && i < |s.list|
    ensures View(s)[i].obj == s.list[i] && CellAt(s'.heap, s.list[i]) == View(s)[i]
  {}

  // ---------- Every scan is a tick ----------

  ghost predicate AllScanning(s: State, acts: seq<Action>) {
    forall n :: 1 <= n <= |acts| ==> Exec(s, acts[..n]).cleaner.Scanning?
  }

  lemma {:induction false} ExecAppend(s: State, a: seq<Action>, b: seq<Action>)
    ensures Exec(s, a + b) == Exec(Exec(s, a), b)
    decreases |b|
  {
    if b == [] {
      assert a + b == a;
    } else {
      ExecAppend(s, a, b[..|b|-1]);
      assert (a + b)[..|a+b|-1] == a + b[..|b|-1];
    }
  }

  lemma ScanningAppend(s: State, a: seq<Action>, b: seq<Action>)
    requires AllScanning(s, a) && AllScanning(Exec(s, a), b)
    ensures AllScanning(s, a + b)
  {
    forall n | 1 <= n <= |a + b| ensures Exec(s, (a + b)[..n]).cleaner.Scanning? {
      if n <= |a| {
        assert (a + b)[..n] == a[..n];
      } else {
        assert (a + b)[..n] == a + b[..n-|a|];
        ExecAppend(s, a, b[..n-|a|]);
      }
    }
  }

  /** One more step of a schedule: in `t` so far, still scanning afterwards. */
  lemma ScanningSnoc(s: State, acts: seq<Action>, t: State, a: Action)
    requires AllScanning(s, acts) && Exec(s, acts) == t && Next(t, a).cleaner.Scanning?
    ensures AllScanning(s, acts + [a]) && Exec(s, acts + [a]) == Next(t, a)
  {
    assert (acts + [a])[..|acts|] == acts;
    forall n | 1 <= n <= |acts + [a]| ensures Exec(s, (acts + [a])[..n]).cleaner.Scanning? {
      if n <= |acts| { assert (acts + [a])[..n] == acts[..n]; } else { assert (acts + [a])[..n] == acts + [a]; }
    }
  }

  /** The machine deals with the next event, testing it at time `t`. */
  lemma ScanOne(s0: State, s: State, at: seq<Time>, t: Time) returns (acts: seq<Action>)
    requires InTick(s0, s, at) && s.cleaner.stage.Untested? && s.cleaner.i < |s0.list| && s.clock <= t
    ensures var s' := Exec(s, acts);
            && Unmarked(acts) && AllScanning(s, acts) && InTick(s0, s', at + [t])
            && s'.cleaner == Scanning(s0.list, s.cleaner.i + 1, Untested) && s'.clock == t && s'.heap == s.heap
  {
    hide InTick, Unmarked, Exec, AllScanning, Keep, Gone;
    ScansNothing(s);
    acts := [];
    var u := s;
    InTickMeans(s0, u, at);
    TickStep(s0, u, at);
    ScanningSnoc(s, acts, u, Clean);
    acts, u := acts + [Clean], CleanStep(u);
    TickWaits(s0, u, at, Wait(t - u.clock));
    ScanningSnoc(s, acts, u, Wait(t - u.clock));
    acts, u := acts + [Wait(t - u.clock)], Next(u, Wait(t - u.clock));
    TickStep(s0, u, at);
    ScanningSnoc(s, acts, u, Clean);
    acts, u := acts + [Clean], CleanStep(u);
    assert acts == [Clean, Wait(t - s.clock), Clean];
    if u.cleaner.stage.Condemned? {
      TickStep(s0, u, at + [t]);
      ScanningSnoc(s, acts, u, Clean);
      acts, u := acts + [Clean], CleanStep(u);
      assert acts == [Clean, Wait(t - s.clock), Clean, Clean];
    }
    UnmarkedShort(acts, t - s.clock);
  }

  lemma InTickMeans(s0: State, s: State, at: seq<Time>)
    requires InTick(s0, s, at)
    ensures s.cleaner.Scanning? && s.cleaner.snap == s0.list
  {}

  lemma ScansNothing(s: State)
    ensures AllScanning(s, []) && Exec(s, []) == s
  {}

  lemma UnmarkedShort(acts: seq<Action>, d: nat)
    requires acts == [Clean, Wait(d), Clean] || acts == [Clean, Wait(d), Clean, Clean]
    ensures Unmarked(acts)
  {}

  lemma UnmarkedAppend(a: seq<Action>, b: seq<Action>)
    requires Unmarked(a) && Unmarked(b)
    ensures Unmarked(a + b)
  {}

  lemma ScanBegins(s: State)
    requires Inv(s) && s.cleaner.Resting?
    ensures Exec(s, [Clean]) == CleanStep(s) && Unmarked([Clean]) && AllScanning(s, [Clean])
              && InTick(s, CleanStep(s), [])
  {
    hide InTick, Inv;
    TickBegins(s);
    var acts := [Clean];
    assert acts[..0] == [] && acts[..1] == acts && Exec(s, []) == s;
  }

  lemma {:induction false} ScanUpTo(s: State, at: seq<Time>, i: nat) returns (acts: seq<Action>)
    requires Inv(s) && s.cleaner.Resting? && i <= |at| == |s.list| && NonDecreasing(at)
    requires forall h :: 0 <= h < |at| ==> s.clock <= at[h]
    ensures var s' := Exec(s, acts);
            && acts != [] && acts[0].Clean? && Unmarked(acts) && AllScanning(s, acts) && InTick(s, s', at[..i])
            && s'.cleaner == Scanning(s.list, i, Untested) && s'.heap == s.heap
            && s'.clock == if i == 0 then s.clock else at[i-1]
  {
    hide InTick, Unmarked, Exec, AllScanning, Inv;
    if i == 0 {
      acts := [Clean];
      assert at[..0] == [];
      ScanBegins(s);
    } else {
      acts := ScanUpTo(s, at, i - 1);
      var u := Exec(s, acts);
      var more := ScanOne(s, u, at[..i-1], at[i-1]);
      ExecAppend(s, acts, more);
      ScanningAppend(s, acts, more);
      UnmarkedAppend(acts, more);
      assert at[..i-1] + [at[i-1]] == at[..i];
      acts := acts + more;
    }
  }

  /** Conversely, for any clock readings that do not go back there is a tick of the machine
      that makes them and ends with the filter. */
  lemma {:induction false} EveryScanIsATick(s: State, at: seq<Time>) returns (acts: seq<Action>)
    requires Inv(s) && s.cleaner.Resting? && |at| == |s.list| && NonDecreasing(at)
    requires forall h :: 0 <= h < |at| ==> s.clock <= at[h]
    ensures Unmarked(acts) && OneTick(s, acts)
    ensures Exec(s, acts).heap == s.heap && View(Exec(s, acts)) == Kept(View(s), at, |at|)
  {
    var scan := ScanUpTo(s, at, |at|);
    assert at[..|at|] == at;
    var u := Exec(s, scan);
    acts := scan + [Clean];
    assert acts[..|scan|] == scan;
    TickEnds(s, u, at);
    hide InTick, Inv, View, Kept;
    assert NewCells(s, CleanStep(u)) == [] && CleanStep(u).heap == s.heap;
    forall n | 1 <= n < |acts| ensures Exec(s, acts[..n]).cleaner.Scanning? { assert acts[..n] == scan[..n]; }
  }
}

/** The goroutines around one repository's cache, interleaved: every action lets one of
    them take its next atomic step. An action whose goroutine cannot move changes nothing,
    so every list of actions is a schedule.

    Objects are named by the number of the accept that created them, so the heap is the
    accept log and pointers are numbers. `Store` and `Remove` hold the store's lock and are
    single steps; every read or write of an event's field is a step of its own. */
module Protocol {
  import opened Events
  import opened Codec
  import opened CacheSpec

  /** `since` is when the flag was set (history only). */
  datatype Obj = Obj(data: EventData, relayed: bool, time: Time, since: Time)

  /** The cleaner reads an event's time, then its flag and the clock, then removes it. */
  datatype Stage = Untested | TimeRead(t: Time) | Condemned(t: Time)

  datatype Cleaner = Resting | Scanning(snap: seq<nat>, i: nat, stage: Stage)

  /** A stream handler. `upto` is how many events had been accepted when the slice was
      retrieved (history only). */
  datatype Fetcher =
    | Waiting
    | Collecting(snap: seq<nat>, i: nat, batch: seq<nat>, upto: nat)
    | Ready(batch: seq<nat>, upto: nat)
    | Sent(batch: seq<nat>, upto: nat)
    | Marking(snap: seq<nat>, batch: seq<nat>, j: nat, flagged: bool, upto: nat)

  /** A push-relay loop; `called` is set between the relay call and the mark. */
  datatype Pusher = Asleep | Pushing(snap: seq<nat>, i: nat, called: bool)

  /** History of one removal: the object, the time the cleaner had read from it, and when. */
  datatype Drop = Drop(obj: nat, seen: Time, at: Time)

  datatype State = State(
    heap: seq<Obj>, list: seq<nat>, drops: seq<Drop>, clock: Time, cleaner: Cleaner,
    fetchers: seq<Fetcher>, pushers: seq<Pusher>, sent: seq<nat>, calls: seq<nat>)

  /** How an event reaches the cache: an HTTP POST, or a message pushed or streamed to it. */
  datatype Ingress = Posted(order: seq<string>, headers: HttpHeaders, body: Bytes) | Messaged(message: Message)

  datatype Action = Accept(source: Ingress) | Wait(d: nat) | Clean | Fetch(k: nat, ok: bool) | Push(k: nat)

  ghost predicate WellFormed(source: Ingress) {
    source.Posted? ==> IsOrderOf(source.order, source.headers) && ValuesPresent(source.headers)
  }

  ghost function EventOf(source: Ingress): EventData
    requires WellFormed(source)
  {
    match source
    case Posted(order, headers, body) => FromPost(order, headers, body)
    case Messaged(message) => Decode(Wire(message))
  }

  // ---------- Reading and writing objects ----------

  ghost function IdOf(heap: seq<Obj>, o: nat): string {
    if o < |heap| then heap[o].data.id else ""
  }

  ghost predicate Flag(heap: seq<Obj>, o: nat) {
    o < |heap| && heap[o].relayed
  }

  ghost function Stamp(heap: seq<Obj>, o: nat): Time {
    if o < |heap| then heap[o].time else ZERO_TIME
  }

  /** When the object became relayed. */
  ghost function Since(heap: seq<Obj>, o: nat): Time {
    if o < |heap| then heap[o].since else ZERO_TIME
  }

  ghost predicate Holds(heap: seq<Obj>, list: seq<nat>, id: string) {
    exists i :: 0 <= i < |list| && IdOf(heap, list[i]) == id
  }

  /** Setting the flag of an object. */
  ghost function Flagged(o: Obj, now: Time): Obj {
    if o.relayed then o else o.(relayed := true, since := now)
  }

  /** The two writes of the marking loop: to every object of the snapshot with this ID. */
  ghost function FlagId(heap: seq<Obj>, snap: seq<nat>, id: string, now: Time): seq<Obj> {
    seq(|heap|, o requires 0 <= o < |heap| =>
      if o in snap && heap[o].data.id == id then Flagged(heap[o], now) else heap[o])
  }

  ghost function StampId(heap: seq<Obj>, snap: seq<nat>, id: string, now: Time): seq<Obj> {
    seq(|heap|, o requires 0 <= o < |heap| =>
      if o in snap && heap[o].data.id == id then heap[o].(time := now) else heap[o])
  }

  ghost function FlagObj(heap: seq<Obj>, x: nat, now: Time): seq<Obj> {
    if x < |heap| then heap[x := Flagged(heap[x], now)] else heap
  }

  /** `Remove` by ID splits the first `n` of the list into what stays and what goes. */
  ghost function Keep(heap: seq<Obj>, list: seq<nat>, id: string, n: nat): seq<nat>
    requires n <= |list|
  {
    if n == 0 then []
    else Keep(heap, list, id, n - 1) + (if IdOf(heap, list[n-1]) != id then [list[n-1]] else [])
  }

  ghost function Gone(heap: seq<Obj>, list: seq<nat>, id: string, seen: Time, at: Time, n: nat): seq<Drop>
    requires n <= |list|
  {
    if n == 0 then []
    else Gone(heap, list, id, seen, at, n - 1) +
         (if IdOf(heap, list[n-1]) == id then [Drop(list[n-1], seen, at)] else [])
  }

  // ---------- Steps ----------

  ghost function Ingest(s: State, e: EventData): State {
    if Holds(s.heap, s.list, e.id) then s
    else s.(heap := s.heap + [Obj(e, false, ZERO_TIME, ZERO_TIME)], list := s.list + [|s.heap|])
  }

  ghost function CleanStep(s: State): State {
    match s.cleaner
    case Resting => s.(cleaner := Scanning(s.list, 0, Untested))
    case Scanning(snap, i, stage) =>
      if i >= |snap| then s.(cleaner := Resting)
      else match stage
        case Untested => s.(cleaner := Scanning(snap, i, TimeRead(Stamp(s.heap, snap[i]))))
        case TimeRead(t) =>
          if Flag(s.heap, snap[i]) && s.clock > t + RETENTION
          then s.(cleaner := Scanning(snap, i, Condemned(t)))
          else s.(cleaner := Scanning(snap, i + 1, Untested))
        case Condemned(t) =>
          var id := IdOf(s.heap, snap[i]);
          s.(list := Keep(s.heap, s.list, id, |s.list|),
             drops := s.drops + Gone(s.heap, s.list, id, t, s.clock, |s.list|),
             cleaner := Scanning(snap, i + 1, Untested))
  }

  ghost function FetchStep(s: State, k: nat, ok: bool): State
    requires k < |s.fetchers|
  {
    match s.fetchers[k]
    case Waiting => s.(fetchers := s.fetchers[k := Collecting(s.list, 0, [], |s.heap|)])
    case Collecting(snap, i, batch, upto) =>
      if i >= |snap| then s.(fetchers := s.fetchers[k := Ready(batch, upto)])
      else
        var batch' := if Flag(s.heap, snap[i]) then batch else batch + [snap[i]];
        s.(fetchers := s.fetchers[k := Collecting(snap, i + 1, batch', upto)])
    case Ready(batch, upto) =>
      if ok then s.(fetchers := s.fetchers[k := Sent(batch, upto)], sent := s.sent + batch)
      else s.(fetchers := s.fetchers[k := Waiting])
    case Sent(batch, upto) => s.(fetchers := s.fetchers[k := Marking(s.list, batch, 0, false, upto)])
    case Marking(snap, batch, j, flagged, upto) =>
      if j >= |batch| then s.(fetchers := s.fetchers[k := Waiting])
      else
        var id := IdOf(s.heap, batch[j]);
        if !flagged then
          s.(heap := FlagId(s.heap, snap, id, s.clock),
             fetchers := s.fetchers[k := Marking(snap, batch, j, true, upto)])
        else
          s.(heap := StampId(s.heap, snap, id, s.clock),
             fetchers := s.fetchers[k := Marking(snap, batch, j + 1, false, upto)])
  }

  ghost function PushStep(s: State, k: nat): State
    requires k < |s.pushers|
  {
    match s.pushers[k]
    case Asleep => s.(pushers := s.pushers[k := Pushing(s.list, 0, false)])
    case Pushing(snap, i, called) =>
      if i >= |snap| then s.(pushers := s.pushers[k := Asleep])
      else if called then
        s.(heap := FlagObj(s.heap, snap[i], s.clock), pushers := s.pushers[k := Pushing(snap, i + 1, false)])
      else if Flag(s.heap, snap[i]) then s.(pushers := s.pushers[k := Pushing(snap, i + 1, false)])
      else s.(calls := s.calls + [snap[i]], pushers := s.pushers[k := Pushing(snap, i, true)])
  }

  ghost function Next(s: State, a: Action): State {
    match a
    case Accept(source) => if WellFormed(source) then Ingest(s, EventOf(source)) else s
    case Wait(d) => s.(clock := s.clock + d)
    case Clean => CleanStep(s)
    case Fetch(k, ok) => if k < |s.fetchers| then FetchStep(s, k, ok) else s
    case Push(k) => if k < |s.pushers| then PushStep(s, k) else s
  }

  ghost function Exec(s: State, acts: seq<Action>): State {
    if acts == [] then s else Next(Exec(s, acts[..|acts|-1]), acts[|acts|-1])
  }

  /** An empty cache with `nf` stream handlers and `np` push-relay loops. */
  ghost function Init(nf: nat, np: nat, start: Time): State {
    State([], [], [], start, Resting, seq(nf, _ => Waiting), seq(np, _ => Asleep), [], [])
  }

  // ---------- The invariant every schedule keeps ----------

  ghost predicate Increasing(xs: seq<nat>) {
    forall i, j :: 0 <= i < j < |xs| ==> xs[i] < xs[j]
  }

  ghost predicate Below(xs: seq<nat>, n: nat) {
    forall i :: 0 <= i < |xs| ==> xs[i] < n
  }

  /** No two of these objects have the same ID. */
  ghost predicate IdsDiffer(heap: seq<Obj>, xs: seq<nat>) {
    forall i, j :: 0 <= i < j < |xs| ==> IdOf(heap, xs[i]) != IdOf(heap, xs[j])
  }

  ghost predicate Dropped(drops: seq<Drop>, o: nat) {
    exists d :: 0 <= d < |drops| && drops[d].obj == o
  }

  /** The list is in accept order with one event per ID; every accepted event is in it or
      was dropped, not both; only relayed events were dropped. */
  ghost predicate ListInv(heap: seq<Obj>, list: seq<nat>, drops: seq<Drop>) {
    && Increasing(list) && Below(list, |heap|) && IdsDiffer(heap, list)
    && (forall o :: 0 <= o < |heap| ==> (o in list <==> !Dropped(drops, o)))
    && (forall d :: 0 <= d < |drops| ==> Flag(heap, drops[d].obj))
    && (forall o :: 0 <= o < |heap| ==> Coherent(heap[o].data))
  }

  /** What is still to be scanned is still in the list; what is condemned is relayed. */
  ghost predicate CleanerInv(heap: seq<Obj>, list: seq<nat>, clock: Time, c: Cleaner) {
    c.Scanning? ==>
      && c.i <= |c.snap| && Increasing(c.snap)
      && (forall p :: c.i <= p < |c.snap| ==> c.snap[p] in list)
      && (!c.stage.Untested? ==> c.i < |c.snap|)
      && (c.stage.Condemned? ==> Flag(heap, c.snap[c.i]) && clock > c.stage.t + RETENTION)
  }

  ghost predicate FetcherInv(heap: seq<Obj>, f: Fetcher) {
    && (f.Collecting? ==> Below(f.snap, |heap|) && Below(f.batch, |heap|) && f.i <= |f.snap|)
    && (f.Ready? || f.Sent? ==> Below(f.batch, |heap|))
    && (f.Marking? ==> Below(f.snap, |heap|) && Below(f.batch, |heap|) && IdsDiffer(heap, f.snap))
  }

  ghost predicate PusherInv(heap: seq<Obj>, p: Pusher) {
    p.Pushing? ==> Below(p.snap, |heap|) && (p.called ==> p.i < |p.snap|)
  }

  ghost predicate Inv(s: State) {
    && ListInv(s.heap, s.list, s.drops)
    && CleanerInv(s.heap, s.list, s.clock, s.cleaner)
    && (forall k :: 0 <= k < |s.fetchers| ==> FetcherInv(s.heap, s.fetchers[k]))
    && (forall k :: 0 <= k < |s.pushers| ==> PusherInv(s.heap, s.pushers[k]))
  }

  /** Objects are only added; their data never changes; a flag is never unset, and is set
      at one instant. */
  ghost predicate Grows(h: seq<Obj>, h': seq<Obj>) {
    |h| <= |h'| && forall o :: 0 <= o < |h| ==>
      h'[o].data == h[o].data && (h[o].relayed ==> h'[o].relayed && h'[o].since == h[o].since)
  }

  // ---------- Its proof ----------

  ghost function Omit(list: seq<nat>, k: nat): seq<nat>
    requires k < |list|
  {
    seq(|list| - 1, i requires 0 <= i < |list| - 1 => list[if i < k then i else i + 1])
  }

  lemma KeepSnoc(heap: seq<Obj>, list: seq<nat>, id: string, n: nat)
    requires n <= |list|
    ensures Keep(heap, list, id, n) ==
            if n == 0 then []
            else if IdOf(heap, list[n-1]) != id then Keep(heap, list, id, n - 1) + [list[n-1]]
            else Keep(heap, list, id, n - 1)
  {}

  lemma {:induction false} KeepAt(heap: seq<Obj>, list: seq<nat>, k: nat, n: nat)
    requires IdsDiffer(heap, list) && k < |list| && n <= |list|
    ensures var kept := Keep(heap, list, IdOf(heap, list[k]), n);
            && |kept| == (if n <= k then n else n - 1)
            && forall i :: 0 <= i < |kept| ==> kept[i] == list[if i < k then i else i + 1]
  {
    hide Keep;
    KeepSnoc(heap, list, IdOf(heap, list[k]), n);
    if n == 0 {
    } else {
      KeepAt(heap, list, k, n - 1);
    }
  }

  lemma GoneSnoc(heap: seq<Obj>, list: seq<nat>, id: string, seen: Time, at: Time, n: nat)
    requires n <= |list|
    ensures Gone(heap, list, id, seen, at, n) ==
            if n == 0 then []
            else if IdOf(heap, list[n-1]) == id then Gone(heap, list, id, seen, at, n - 1) + [Drop(list[n-1], seen, at)]
            else Gone(heap, list, id, seen, at, n - 1)
  {}

  lemma {:induction false} GoneAt(heap: seq<Obj>, list: seq<nat>, k: nat, seen: Time, at: Time, n: nat)
    requires IdsDiffer(heap, list) && k < |list| && n <= |list|
    ensures Gone(heap, list, IdOf(heap, list[k]), seen, at, n) == if n <= k then [] else [Drop(list[k], seen, at)]
  {
    hide Gone;
    GoneSnoc(heap, list, IdOf(heap, list[k]), seen, at, n);
    if n == 0 {
    } else {
      GoneAt(heap, list, k, seen, at, n - 1);
    }
  }

  lemma OmitKeeps(heap: seq<Obj>, list: seq<nat>, k: nat)
    requires k < |list| && Increasing(list)
    ensures Increasing(Omit(list, k)) && (IdsDiffer(heap, list) ==> IdsDiffer(heap, Omit(list, k)))
    ensures forall x :: x in Omit(list, k) <==> x in list && x != list[k]
  {
    forall x | x in list && x != list[k] ensures x in Omit(list, k) {
      var i :| 0 <= i < |list| && list[i] == x;
      assert Omit(list, k)[if i < k then i else i - 1] == x;
    }
  }

  lemma DroppedSnoc(drops: seq<Drop>, d: Drop)
    ensures forall x :: Dropped(drops + [d], x) <==> Dropped(drops, x) || x == d.obj
  {
    forall x ensures Dropped(drops + [d], x) <==> Dropped(drops, x) || x == d.obj {
      if Dropped(drops, x) {
        var i :| 0 <= i < |drops| && drops[i].obj == x;
        assert (drops + [d])[i].obj == x;
      }
      assert (drops + [d])[|drops|] == d;
    }
  }

  lemma GrowthKeeps(h: seq<Obj>, h': seq<Obj>, list: seq<nat>, drops: seq<Drop>, clock: Time, c: Cleaner)
    requires Grows(h, h') && |h| == |h'|
    requires ListInv(h, list, drops) && CleanerInv(h, list, clock, c)
    ensures ListInv(h', list, drops) && CleanerInv(h', list, clock, c)
  {
    assert forall o :: IdOf(h', o) == IdOf(h, o);
    assert forall o :: Flag(h, o) ==> Flag(h', o);
  }

  lemma WaitersKeep(s: State, s': State)
    requires Inv(s) && Grows(s.heap, s'.heap) && s'.fetchers == s.fetchers && s'.pushers == s.pushers
    ensures forall k :: 0 <= k < |s'.fetchers| ==> FetcherInv(s'.heap, s'.fetchers[k])
    ensures forall k :: 0 <= k < |s'.pushers| ==> PusherInv(s'.heap, s'.pushers[k])
  {
    forall k | 0 <= k < |s'.fetchers| ensures FetcherInv(s'.heap, s'.fetchers[k]) {
      FetcherKeeps(s.heap, s'.heap, s.fetchers[k]);
    }
  }

  lemma FetcherKeeps(h: seq<Obj>, h': seq<Obj>, f: Fetcher)
    requires Grows(h, h') && FetcherInv(h, f)
    ensures FetcherInv(h', f)
  {
    if f.Marking? {
      assert forall i :: 0 <= i < |f.snap| ==> IdOf(h', f.snap[i]) == IdOf(h, f.snap[i]);
    }
  }

  lemma IngestKeeps(s: State, e: EventData)
    requires Inv(s) && Coherent(e)
    ensures Inv(Ingest(s, e)) && Grows(s.heap, Ingest(s, e).heap)
  {
    hide ListInv, CleanerInv, FetcherInv, PusherInv, Holds;
    var s' := Ingest(s, e);
    if s' != s {
      IngestList(s, e);
      IngestCleaner(s, e);
      WaitersKeep(s, s');
    }
  }

  lemma IngestList(s: State, e: EventData)
    requires ListInv(s.heap, s.list, s.drops) && Coherent(e) && !Holds(s.heap, s.list, e.id)
    ensures ListInv(Ingest(s, e).heap, Ingest(s, e).list, s.drops)
  {
    var s', h, n := Ingest(s, e), s.heap, |s.heap|;
    assert forall o :: 0 <= o < n ==> IdOf(s'.heap, o) == IdOf(h, o) && Flag(s'.heap, o) == Flag(h, o);
    assert !Dropped(s.drops, n) by { assert forall d :: 0 <= d < |s.drops| ==> Flag(h, s.drops[d].obj); }
    assert forall o :: o in s'.list <==> o in s.list || o == n;
  }

  lemma IngestCleaner(s: State, e: EventData)
    requires CleanerInv(s.heap, s.list, s.clock, s.cleaner) && !Holds(s.heap, s.list, e.id)
    ensures CleanerInv(Ingest(s, e).heap, Ingest(s, e).list, s.clock, s.cleaner)
  {
    assert forall o :: o in s.list ==> o in Ingest(s, e).list;
  }

  lemma CleanKeeps(s: State)
    requires Inv(s)
    ensures Inv(CleanStep(s))
  {
    var s' := CleanStep(s);
    if s.cleaner.Scanning? && s.cleaner.i < |s.cleaner.snap| && s.cleaner.stage.Condemned? {
      RemovalKeeps(s);
    }
  }

  /** The removal of a condemned event drops the very object that was tested, which is
      relayed, and no other: not even one stored since under the same ID. */
  lemma CondemnedIsDropped(s: State)
    requires Inv(s) && s.cleaner.Scanning? && s.cleaner.stage.Condemned?
    ensures var o := s.cleaner.snap[s.cleaner.i];
            && Flag(s.heap, o) && o in s.list
            && CleanStep(s).drops == s.drops + [Drop(o, s.cleaner.stage.t, s.clock)]
            && (forall x :: x in CleanStep(s).list <==> x in s.list && x != o)
            && CleanStep(s).heap == s.heap
  {
    var c := s.cleaner;
    var k := RemovalAt(s);
    OmitKeeps(s.heap, s.list, k);
  }

  lemma RemovalAt(s: State) returns (k: nat)
    requires Inv(s) && s.cleaner.Scanning? && s.cleaner.stage.Condemned?
    ensures k < |s.list| && s.list[k] == s.cleaner.snap[s.cleaner.i]
    ensures CleanStep(s) == s.(list := Omit(s.list, k),
                               drops := s.drops + [Drop(s.list[k], s.cleaner.stage.t, s.clock)],
                               cleaner := Scanning(s.cleaner.snap, s.cleaner.i + 1, Untested))
  {
    hide Inv, IdsDiffer, Keep, Gone, Omit;
    var c, n := s.cleaner, |s.list|;
    ScannedIsListed(s);
    k :| 0 <= k < |s.list| && s.list[k] == c.snap[c.i];
    KeepAt(s.heap, s.list, k, n);
    GoneAt(s.heap, s.list, k, c.stage.t, s.clock, n);
    KeepIsOmit(s.heap, s.list, k);
  }

  lemma ScannedIsListed(s: State)
    requires Inv(s) && s.cleaner.Scanning? && s.cleaner.stage.Condemned?
    ensures s.cleaner.i < |s.cleaner.snap| && s.cleaner.snap[s.cleaner.i] in s.list && IdsDiffer(s.heap, s.list)
  {}

  lemma KeepIsOmit(heap: seq<Obj>, list: seq<nat>, k: nat)
    requires IdsDiffer(heap, list) && k < |list|
    ensures Keep(heap, list, IdOf(heap, list[k]), |list|) == Omit(list, k)
  {
    hide Keep, IdsDiffer;
    KeepAt(heap, list, k, |list|);
  }

  lemma RemovalKeeps(s: State)
    requires Inv(s) && s.cleaner.Scanning? && s.cleaner.stage.Condemned?
    ensures Inv(CleanStep(s))
  {
    var k := RemovalAt(s);
    hide Keep, Gone, CleanStep, Coherent;
    OmitKeeps(s.heap, s.list, k);
    DroppedSnoc(s.drops, Drop(s.list[k], s.cleaner.stage.t, s.clock));
  }

  lemma FetchKeeps(s: State, k: nat, ok: bool)
    requires Inv(s) && k < |s.fetchers|
    ensures Inv(FetchStep(s, k, ok)) && Grows(s.heap, FetchStep(s, k, ok).heap)
  {
    var s' := FetchStep(s, k, ok);
    FetcherMoves(s, k, ok);
    hide FetchStep, FetcherInv, ListInv, CleanerInv;
    GrowthKeeps(s.heap, s'.heap, s.list, s.drops, s.clock, s.cleaner);
    forall i | 0 <= i < |s'.fetchers| && i != k ensures FetcherInv(s'.heap, s'.fetchers[i]) {
      FetcherKeeps(s.heap, s'.heap, s.fetchers[i]);
    }
  }

  /** What a fetch step does to the state, and to the handler that takes it. */
  lemma FetcherMoves(s: State, k: nat, ok: bool)
    requires Inv(s) && k < |s.fetchers|
    ensures var s' := FetchStep(s, k, ok);
            && |s'.heap| == |s.heap| && Grows(s.heap, s'.heap) && |s'.fetchers| == |s.fetchers|
            && s' == s.(heap := s'.heap, fetchers := s.fetchers[k := s'.fetchers[k]], sent := s'.sent)
            && FetcherInv(s'.heap, s'.fetchers[k])
  {
    var s' := FetchStep(s, k, ok);
    assert FetcherInv(s.heap, s.fetchers[k]);
    hide CleanerInv, PusherInv;
    FetcherKeeps(s.heap, s'.heap, s.fetchers[k]);
  }

  lemma PushKeeps(s: State, k: nat)
    requires Inv(s) && k < |s.pushers|
    ensures Inv(PushStep(s, k)) && Grows(s.heap, PushStep(s, k).heap)
  {
    var s' := PushStep(s, k);
    GrowthKeeps(s.heap, s'.heap, s.list, s.drops, s.clock, s.cleaner);
    forall i | 0 <= i < |s'.fetchers| ensures FetcherInv(s'.heap, s'.fetchers[i]) {
      FetcherKeeps(s.heap, s'.heap, s.fetchers[i]);
    }
  }

  lemma IngressIsCoherent(source: Ingress)
    requires WellFormed(source)
    ensures Coherent(EventOf(source))
  {
    match source
    case Posted(order, headers, body) => PostIsCoherent(order, headers, body);
    case Messaged(message) => DeliveryIdOfNonEmpty(Received(Wire(message)));
  }

  lemma {:induction false} NextKeeps(s: State, a: Action)
    requires Inv(s)
    ensures Inv(Next(s, a)) && Grows(s.heap, Next(s, a).heap)
  {
    match a
    case Accept(source) =>
      if WellFormed(source) {
        IngressIsCoherent(source);
        IngestKeeps(s, EventOf(source));
      }
    case Wait(d) =>
    case Clean => CleanKeeps(s);
    case Fetch(k, ok) => if k < |s.fetchers| { FetchKeeps(s, k, ok); }
    case Push(k) => if k < |s.pushers| { PushKeeps(s, k); }
  }

  lemma {:induction false} RunKeeps(s: State, acts: seq<Action>)
    requires Inv(s)
    ensures Inv(Exec(s, acts)) && Grows(s.heap, Exec(s, acts).heap)
  {
    if acts == [] {
    } else {
      RunKeeps(s, acts[..|acts|-1]);
      NextKeeps(Exec(s, acts[..|acts|-1]), acts[|acts|-1]);
    }
  }
}

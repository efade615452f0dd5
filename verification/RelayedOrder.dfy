/** Do the relayed events of a repository come first in its list? Exactly when its stream
    handler is alone, or it has none; or when no ID is accepted twice. */
module RelayedOrder {
  import opened Events
  import opened Codec
  import opened CacheSpec
  import opened Protocol
  import opened Safety

  /** The flags of the list read true ... true false ... false. */
  ghost predicate RelayedPrefix(s: State) {
    forall i, j :: 0 <= i < j < |s.list| && Flag(s.heap, s.list[j]) ==> Flag(s.heap, s.list[i])
  }

  /** The same in accept order, removed events included. */
  ghost predicate Downward(heap: seq<Obj>) {
    forall o, p :: 0 <= o < p < |heap| && heap[p].relayed ==> heap[o].relayed
  }

  ghost predicate NoReacceptance(heap: seq<Obj>) {
    forall o, p :: 0 <= o < p < |heap| ==> heap[o].data.id != heap[p].data.id
  }

  /** What comes before one of these in accept order is one of them or relayed. */
  ghost predicate Covers(heap: seq<Obj>, xs: seq<nat>) {
    forall i, o :: 0 <= i < |xs| && 0 <= o < xs[i] ==> o in xs || Flag(heap, o)
  }

  ghost predicate AllFlagged(heap: seq<Obj>, xs: seq<nat>, n: nat)
    requires n <= |xs|
  {
    forall i :: 0 <= i < n ==> Flag(heap, xs[i])
  }

  ghost predicate PusherOrder(heap: seq<Obj>, p: Pusher) {
    p.Pushing? ==> p.i <= |p.snap| && Increasing(p.snap) && Covers(heap, p.snap) && AllFlagged(heap, p.snap, p.i)
  }

  ghost predicate BatchOrder(heap: seq<Obj>, batch: seq<nat>) {
    Increasing(batch) && Covers(heap, batch)
  }

  ghost predicate FetcherOrder(heap: seq<Obj>, f: Fetcher) {
    match f
    case Waiting => true
    case Collecting(snap, i, batch, _) =>
      && i <= |snap| && Increasing(snap) && Covers(heap, snap) && Increasing(batch)
      && (forall b :: 0 <= b < |batch| ==> batch[b] in snap[..i])
      && (forall q :: 0 <= q < i ==> Flag(heap, snap[q]) || snap[q] in batch)
    case Ready(batch, _) => BatchOrder(heap, batch)
    case Sent(batch, _) => BatchOrder(heap, batch)
    case Marking(snap, batch, j, flagged, _) =>
      && BatchOrder(heap, batch) && j <= |batch| && AllFlagged(heap, batch, j)
      && (flagged ==> j < |batch| && Flag(heap, batch[j]))
      && (forall b :: 0 <= b < |batch| ==> batch[b] in snap || Flag(heap, batch[b]))
  }

  ghost predicate OrderInv(s: State) {
    && Downward(s.heap)
    && (forall k :: 0 <= k < |s.fetchers| ==> FetcherOrder(s.heap, s.fetchers[k]))
    && (forall k :: 0 <= k < |s.pushers| ==> PusherOrder(s.heap, s.pushers[k]))
  }

  // ---------- The invariant is kept ----------

  lemma OrdersGrow(h: seq<Obj>, h': seq<Obj>)
    requires Grows(h, h')
    ensures forall o :: Flag(h, o) ==> Flag(h', o)
    ensures forall f :: FetcherOrder(h, f) ==> FetcherOrder(h', f)
    ensures forall p :: PusherOrder(h, p) ==> PusherOrder(h', p)
  {}

  lemma ListCovers(s: State)
    requires Inv(s)
    ensures Covers(s.heap, s.list) && Increasing(s.list)
    ensures forall o :: 0 <= o < |s.heap| ==> o in s.list || Flag(s.heap, o)
  {
    forall o | 0 <= o < |s.heap| && o !in s.list ensures Flag(s.heap, o) {
      var d :| 0 <= d < |s.drops| && s.drops[d].obj == o;
    }
  }

  lemma CollectingKeeps(heap: seq<Obj>, f: Fetcher)
    requires f.Collecting? && f.i < |f.snap| && FetcherOrder(heap, f)
    ensures var batch' := if Flag(heap, f.snap[f.i]) then f.batch else f.batch + [f.snap[f.i]];
            FetcherOrder(heap, Collecting(f.snap, f.i + 1, batch', f.upto))
  {
    var snap, i := f.snap, f.i;
    assert snap[..i+1] == snap[..i] + [snap[i]];
  }

  lemma CollectedCovers(heap: seq<Obj>, f: Fetcher)
    requires f.Collecting? && f.i == |f.snap| && FetcherOrder(heap, f)
    ensures BatchOrder(heap, f.batch)
  {
    assert f.snap[..f.i] == f.snap;
    forall b, o | 0 <= b < |f.batch| && 0 <= o < f.batch[b] ensures o in f.batch || Flag(heap, o) {
      var q :| 0 <= q < |f.snap| && f.snap[q] == f.batch[b];
      if o in f.snap {
        var r :| 0 <= r < |f.snap| && f.snap[r] == o;
        assert Flag(heap, f.snap[r]) || f.snap[r] in f.batch;
      }
    }
  }

  lemma FetchOrder(s: State, k: nat, ok: bool)
    requires Inv(s) && OrderInv(s) && k < |s.fetchers| && NoReacceptance(s.heap)
    ensures OrderInv(FetchStep(s, k, ok))
  {
    hide Inv, NoReacceptance, FetcherOrder, PusherOrder, Downward, FetchStep;
    var f := s.fetchers[k];
    if f.Marking? && f.j < |f.batch| {
      if f.flagged { StampOrder(s, k); } else { FlagOrder(s, k); }
      MarkIgnoresOk(s, k, ok);
    } else {
      ReadOrder(s, k, ok);
    }
  }

  lemma MarkIgnoresOk(s: State, k: nat, ok: bool)
    requires k < |s.fetchers| && s.fetchers[k].Marking?
    ensures FetchStep(s, k, ok) == FetchStep(s, k, true)
  {}

  lemma HandlerIsSafe(s: State, k: nat)
    requires Inv(s) && k < |s.fetchers|
    ensures FetcherInv(s.heap, s.fetchers[k])
  {}

  /** The steps that mark nothing. */
  lemma ReadOrder(s: State, k: nat, ok: bool)
    requires Inv(s) && k < |s.fetchers| && FetcherOrder(s.heap, s.fetchers[k])
    requires var f := s.fetchers[k]; f.Marking? ==> f.j >= |f.batch|
    ensures var s' := FetchStep(s, k, ok);
            && s' == s.(fetchers := s.fetchers[k := s'.fetchers[k]], sent := s'.sent) && |s'.fetchers| == |s.fetchers|
            && FetcherOrder(s.heap, s'.fetchers[k])
  {
    hide Inv;
    var f := s.fetchers[k];
    HandlerIsSafe(s, k);
    ListCovers(s);
    if f.Collecting? {
      if f.i < |f.snap| { CollectingKeeps(s.heap, f); } else { CollectedCovers(s.heap, f); }
    }
  }

  lemma StampOrder(s: State, k: nat)
    requires Inv(s) && OrderInv(s) && k < |s.fetchers|
    requires var f := s.fetchers[k]; f.Marking? && f.j < |f.batch| && f.flagged
    ensures OrderInv(FetchStep(s, k, true))
  {
    var s', f := FetchStep(s, k, true), s.fetchers[k];
    FetchKeeps(s, k, true);
    assert FetcherOrder(s.heap, f);
    hide Inv, NoReacceptance;
    OrdersGrow(s.heap, s'.heap);
    assert forall o :: 0 <= o < |s.heap| ==> s'.heap[o].relayed == s.heap[o].relayed;
    assert FetcherOrder(s.heap, Marking(f.snap, f.batch, f.j + 1, false, f.upto));
    hide FetcherOrder, PusherOrder;
  }

  lemma FlagNextKeepsDownward(h: seq<Obj>, h': seq<Obj>, x: nat)
    requires Downward(h) && |h| == |h'| && x < |h| && h'[x].relayed
    requires forall o :: 0 <= o < |h| && o != x ==> h'[o] == h[o]
    requires forall o :: 0 <= o < x ==> Flag(h, o)
    ensures Downward(h')
  {
    forall o, p | 0 <= o < p < |h'| && h'[p].relayed ensures h'[o].relayed {
      if p != x { assert h[p].relayed; } else { assert Flag(h, o); }
    }
  }

  /** Without re-acceptance, the mark by ID can only hit the event that was sent. */
  lemma FlagOrder(s: State, k: nat)
    requires Inv(s) && OrderInv(s) && k < |s.fetchers| && NoReacceptance(s.heap)
    requires var f := s.fetchers[k]; f.Marking? && f.j < |f.batch| && !f.flagged
    ensures OrderInv(FetchStep(s, k, true))
  {
    var f := s.fetchers[k];
    var x, s' := f.batch[f.j], FetchStep(s, k, true);
    assert FetcherOrder(s.heap, f) && FetcherInv(s.heap, f);
    OrdersGrow(s.heap, s'.heap);
    assert forall o :: 0 <= o < |s.heap| && o != x ==> s'.heap[o] == s.heap[o];
    assert Flag(s'.heap, x);
    forall o | 0 <= o < x ensures Flag(s.heap, o) {
      assert o in f.batch || Flag(s.heap, o);
      if o in f.batch {
        var b :| 0 <= b < |f.batch| && f.batch[b] == o;
        assert b < f.j;
      }
    }
    FlagNextKeepsDownward(s.heap, s'.heap, x);
  }

  lemma PushOrder(s: State, k: nat)
    requires Inv(s) && OrderInv(s) && k < |s.pushers|
    ensures OrderInv(PushStep(s, k))
  {
    var s', p := PushStep(s, k), s.pushers[k];
    PushKeeps(s, k);
    OrdersGrow(s.heap, s'.heap);
    assert PusherOrder(s.heap, p);
    if p.Asleep? {
      ListCovers(s);
    } else if p.i < |p.snap| && p.called {
      var x := p.snap[p.i];
      forall o | 0 <= o < x ensures Flag(s.heap, o) {
        if o in p.snap {
          var q :| 0 <= q < |p.snap| && p.snap[q] == o;
          assert q < p.i;
        }
      }
      FlagNextKeepsDownward(s.heap, s'.heap, x);
    }
  }

  lemma NextOrder(s: State, a: Action)
    requires Inv(s) && OrderInv(s) && (NoReacceptance(s.heap) || s.fetchers == [])
    ensures OrderInv(Next(s, a))
  {
    NextKeeps(s, a);
    match a
    case Accept(source) => OrdersGrow(s.heap, Next(s, a).heap);
    case Wait(d) =>
    case Clean =>
    case Fetch(k, ok) => if k < |s.fetchers| { FetchOrder(s, k, ok); }
    case Push(k) => if k < |s.pushers| { PushOrder(s, k); }
  }

  lemma NoReacceptanceBefore(h: seq<Obj>, h': seq<Obj>)
    requires Grows(h, h') && NoReacceptance(h')
    ensures NoReacceptance(h)
  {}

  lemma SameHandlers(s: State, a: Action)
    ensures |Next(s, a).fetchers| == |s.fetchers|
  {
    hide Keep, Gone, FlagId, StampId, Holds, EventOf, WellFormed;
  }

  lemma {:induction false} RunOrder(s: State, acts: seq<Action>)
    requires Inv(s) && OrderInv(s)
    requires NoReacceptance(Exec(s, acts).heap) || s.fetchers == []
    ensures Inv(Exec(s, acts)) && OrderInv(Exec(s, acts)) && |Exec(s, acts).fetchers| == |s.fetchers|
  {
    hide Inv, OrderInv, NoReacceptance, Next, Grows;
    RunKeeps(s, acts);
    if acts == [] {
    } else {
      var before, a := Exec(s, acts[..|acts|-1]), acts[|acts|-1];
      RunKeeps(s, acts[..|acts|-1]);
      NextKeeps(before, a);
      SameHandlers(before, a);
      if NoReacceptance(Exec(s, acts).heap) {
        NoReacceptanceBefore(before.heap, Exec(s, acts).heap);
      }
      RunOrder(s, acts[..|acts|-1]);
      NextOrder(before, a);
    }
  }

  lemma DownwardIsPrefix(s: State)
    requires Inv(s) && Downward(s.heap)
    ensures RelayedPrefix(s)
  {}

  /** With any mix of consumers, relayed events come first as long as no ID is accepted
      twice; without stream handlers, always. */
  lemma RelayedFirstWithoutReacceptance(nf: nat, np: nat, start: Time, acts: seq<Action>)
    requires NoReacceptance(Exec(Init(nf, np, start), acts).heap) || nf == 0
    ensures RelayedPrefix(Exec(Init(nf, np, start), acts))
  {
    InitInv(nf, np, start);
    RunOrder(Init(nf, np, start), acts);
    DownwardIsPrefix(Exec(Init(nf, np, start), acts));
  }
}

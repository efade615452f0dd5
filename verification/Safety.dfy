/** What holds of every schedule, whatever consumers a repository has. */
module Safety {
  import opened Events
  import opened Codec
  import opened CacheSpec
  import opened Protocol

  lemma RunSnoc(s: State, acts: seq<Action>, a: Action)
    ensures Exec(s, acts + [a]) == Next(Exec(s, acts), a)
  {
    assert (acts + [a])[..|acts|] == acts;
  }

  lemma InitInv(nf: nat, np: nat, start: Time)
    ensures Inv(Init(nf, np, start))
  {}

  ghost function AcceptedIds(s: State): seq<string> {
    seq(|s.heap|, o requires 0 <= o < |s.heap| => s.heap[o].data.id)
  }

  ghost function ListedIds(s: State): seq<string> {
    seq(|s.list|, i requires 0 <= i < |s.list| => IdOf(s.heap, s.list[i]))
  }

  ghost function DroppedIds(s: State): seq<string> {
    seq(|s.drops|, d requires 0 <= d < |s.drops| => IdOf(s.heap, s.drops[d].obj))
  }

  /** For every ID: accepted stores = cached events + removals. */
  ghost predicate Conserved(s: State) {
    multiset(AcceptedIds(s)) == multiset(ListedIds(s)) + multiset(DroppedIds(s))
  }

  /** Cleaner safety and conservation: on every schedule, with any number of stream
      handlers and push-relay loops, each accepted event is cached or was removed, not
      both; only relayed events were removed; the cache lists events in accept order, one
      per ID; and the counts per ID add up. */
  lemma {:induction false} EveryRunIsSafe(nf: nat, np: nat, start: Time, acts: seq<Action>)
    ensures var s := Exec(Init(nf, np, start), acts);
            Inv(s) && Conserved(s) && forall id :: multiset(ListedIds(s))[id] <= 1
  {
    var s := Exec(Init(nf, np, start), acts);
    InitInv(nf, np, start);
    RunKeeps(Init(nf, np, start), acts);
    if acts == [] {
      assert AcceptedIds(s) == [] && ListedIds(s) == [] && DroppedIds(s) == [];
    } else {
      EveryRunIsSafe(nf, np, start, acts[..|acts|-1]);
      NextConserves(Exec(Init(nf, np, start), acts[..|acts|-1]), acts[|acts|-1]);
    }
    OneOfEach(ListedIds(s));
  }

  lemma {:induction false} OneOfEach(ids: seq<string>)
    requires forall i, j :: 0 <= i < j < |ids| ==> ids[i] != ids[j]
    ensures forall id :: multiset(ids)[id] <= 1
  {
    if ids == [] {
    } else {
      var front, last := ids[..|ids|-1], ids[|ids|-1];
      OneOfEach(front);
      assert ids == front + [last];
      assert last !in multiset(front);
    }
  }

  lemma NextConserves(s: State, a: Action)
    requires Inv(s) && Conserved(s)
    ensures Conserved(Next(s, a))
  {
    hide Inv, Conserved, CleanStep, FetchStep, PushStep, Ingest, EventOf, WellFormed;
    match a
    case Accept(source) => if WellFormed(source) { IngestConserves(s, EventOf(source)); }
    case Wait(d) => WaitConserves(s, d);
    case Clean => CleanConserves(s);
    case Fetch(k, ok) => if k < |s.fetchers| { FetchConserves(s, k, ok); }
    case Push(k) => if k < |s.pushers| { PushConserves(s, k); }
  }

  lemma WaitConserves(s: State, d: nat)
    requires Inv(s) && Conserved(s)
    ensures Conserved(s.(clock := s.clock + d))
  {
    hide Inv, Conserved;
    SameIds(s, s.(clock := s.clock + d));
  }

  lemma FetchConserves(s: State, k: nat, ok: bool)
    requires Inv(s) && Conserved(s) && k < |s.fetchers|
    ensures Conserved(FetchStep(s, k, ok))
  {
    hide Inv, Conserved, FetchStep;
    FetcherMoves(s, k, ok);
    SameIds(s, FetchStep(s, k, ok));
  }

  lemma PushConserves(s: State, k: nat)
    requires Inv(s) && Conserved(s) && k < |s.pushers|
    ensures Conserved(PushStep(s, k))
  {
    hide Inv, Conserved;
    PushKeeps(s, k);
    SameIds(s, PushStep(s, k));
  }

  lemma CleanConserves(s: State)
    requires Inv(s) && Conserved(s)
    ensures Conserved(CleanStep(s))
  {
    if s.cleaner.Scanning? && s.cleaner.i < |s.cleaner.snap| && s.cleaner.stage.Condemned? {
      RemovalConserves(s);
    } else {
      hide Inv;
      SameIds(s, CleanStep(s));
    }
  }

  lemma SameIds(s: State, s': State)
    requires Inv(s) && Grows(s.heap, s'.heap) && |s.heap| == |s'.heap| && s.list == s'.list && s.drops == s'.drops
    ensures AcceptedIds(s) == AcceptedIds(s') && ListedIds(s) == ListedIds(s') && DroppedIds(s) == DroppedIds(s')
    ensures Conserved(s) <==> Conserved(s')
  {}

  lemma IngestConserves(s: State, e: EventData)
    requires Inv(s) && Conserved(s)
    ensures Conserved(Ingest(s, e))
  {
    var s' := Ingest(s, e);
    if s' != s {
      assert AcceptedIds(s') == AcceptedIds(s) + [e.id];
      assert ListedIds(s') == ListedIds(s) + [e.id];
      assert DroppedIds(s') == DroppedIds(s) by {
        assert forall d :: 0 <= d < |s.drops| ==> Flag(s.heap, s.drops[d].obj);
      }
    }
  }

  lemma RemovalConserves(s: State)
    requires Inv(s) && Conserved(s) && s.cleaner.Scanning? && s.cleaner.stage.Condemned?
    ensures Conserved(CleanStep(s))
  {
    hide CleanStep, Inv, Omit;
    var k := RemovalAt(s);
    RemovalIds(s, CleanStep(s), k);
    var ids := ListedIds(s);
    assert ids == ids[..k] + [ids[k]] + ids[k+1..];
  }

  lemma RemovalIds(s: State, s': State, k: nat)
    requires k < |s.list| && s'.heap == s.heap && s'.list == Omit(s.list, k)
    requires exists seen, at :: s'.drops == s.drops + [Drop(s.list[k], seen, at)]
    ensures ListedIds(s') == ListedIds(s)[..k] + ListedIds(s)[k+1..]
    ensures DroppedIds(s') == DroppedIds(s) + [ListedIds(s)[k]]
    ensures AcceptedIds(s') == AcceptedIds(s)
  {}
}

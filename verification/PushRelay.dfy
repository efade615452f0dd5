/** A cache with one push-relay loop and no stream handler: every client process, and a
    server in relay mode that nobody streams from. */
module PushRelay {
  import opened Events
  import opened Codec
  import opened CacheSpec
  import opened Protocol
  import opened Safety
  import opened RelayedOrder
  import opened SingleFetch
  import opened Drain

  /** How many events are marked when `n` relay calls were made. */
  ghost function MarkedOf(p: Pusher, n: nat): int {
    if p.Pushing? && p.called then n - 1 else n
  }

  ghost predicate OnePusher(s: State) {
    && Inv(s) && OrderInv(s) && s.fetchers == [] && |s.pushers| == 1
    && |s.calls| <= |s.heap| && s.calls == Range(0, |s.calls|)
    && 0 <= MarkedOf(s.pushers[0], |s.calls|)
    && FlagsUpTo(s.heap, MarkedOf(s.pushers[0], |s.calls|))
    && (s.pushers[0].Pushing? && s.pushers[0].called ==> s.pushers[0].snap[s.pushers[0].i] == |s.calls| - 1)
  }

  lemma PushOnePusher(s: State)
    requires OnePusher(s)
    ensures OnePusher(PushStep(s, 0))
  {
    var p, n := s.pushers[0], |s.calls|;
    PushKeeps(s, 0);
    PushOrder(s, 0);
    if p.Pushing? && p.i < |p.snap| && !p.called && !Flag(s.heap, p.snap[p.i]) {
      NextCallIsNext(s);
      assert s.calls + [n] == Range(0, n + 1);
    }
  }

  /** The first unrelayed event a scan meets is the first unrelayed event there is. */
  lemma NextCallIsNext(s: State)
    requires OnePusher(s)
    requires var p := s.pushers[0]; p.Pushing? && p.i < |p.snap| && !p.called && !Flag(s.heap, p.snap[p.i])
    ensures s.pushers[0].snap[s.pushers[0].i] == |s.calls| < |s.heap|
  {
    var p, n := s.pushers[0], |s.calls|;
    assert PusherOrder(s.heap, p) && PusherInv(s.heap, p);
    var snap, i := p.snap, p.i;
    assert !Flag(s.heap, n) && (n < snap[i] ==> n in snap);
  }

  lemma NextOnePusher(s: State, a: Action)
    requires OnePusher(s)
    ensures OnePusher(Next(s, a))
  {
    NextKeeps(s, a);
    NextOrder(s, a);
    if a.Push? && a.k == 0 {
      PushOnePusher(s);
    }
  }

  lemma {:induction false} RunOnePusher(start: Time, acts: seq<Action>)
    ensures OnePusher(Exec(Init(0, 1, start), acts))
  {
    InitInv(0, 1, start);
    if acts == [] {
    } else {
      RunOnePusher(start, acts[..|acts|-1]);
      NextOnePusher(Exec(Init(0, 1, start), acts[..|acts|-1]), acts[|acts|-1]);
    }
  }

  ghost predicate NoClean(acts: seq<Action>) {
    forall i :: 0 <= i < |acts| ==> !acts[i].Clean?
  }

  /** On every schedule, with or without a cleaner, the relay calls are the accepted events
      in accept order: none twice, none skipped. */
  lemma EachRelayedOnceInOrder(start: Time, acts: seq<Action>)
    ensures var s := Exec(Init(0, 1, start), acts);
            |s.calls| <= |s.heap| && s.calls == Range(0, |s.calls|)
  {
    RunOnePusher(start, acts);
  }

  lemma {:induction false} NothingDropped(nf: nat, np: nat, start: Time, acts: seq<Action>)
    requires NoClean(acts)
    ensures var s := Exec(Init(nf, np, start), acts); s.drops == [] && s.cleaner.Resting?
  {
    if acts == [] {
    } else {
      NothingDropped(nf, np, start, acts[..|acts|-1]);
    }
  }

  /** A cache no cleaner works on lists every accepted event. */
  lemma WholeLog(s: State)
    requires Inv(s) && s.drops == []
    ensures s.list == Range(0, |s.heap|)
  {
    forall o: nat ensures o in s.list <==> 0 <= o < |s.heap| {
      if o in s.list {
        var i :| 0 <= i < |s.list| && s.list[i] == o;
      }
    }
    IncreasingRange(s.list, 0, |s.heap|);
  }

  /** A client process never relays a delivery twice: over its whole life the calls are a
      prefix of its cache, which holds one event per ID. */
  lemma {:induction false} AtMostOneRelayPerDelivery(start: Time, acts: seq<Action>)
    requires NoClean(acts)
    ensures var s := Exec(Init(0, 1, start), acts);
            s.calls <= s.list && IdsDiffer(s.heap, s.calls)
  {
    RunOnePusher(start, acts);
    NothingDropped(0, 1, start, acts);
    WholeLog(Exec(Init(0, 1, start), acts));
  }
}

/** A schedule that goes wrong, and the exact deployments in which relayed events always
    come first; and the small steps such schedules are built from. */
module Exclusivity {
  import opened Events
  import opened Codec
  import opened CacheSpec
  import opened Protocol
  import opened Safety
  import opened RelayedOrder
  import opened SingleFetch

  /** A message that carries nothing but its delivery ID. */
  ghost function Delivery(id: string): Ingress {
    Messaged(Message("", [], [WireHeader(DELIVERY_ID_HEADER, id)]))
  }

  lemma DeliveryHasId(id: string)
    requires id != ""
    ensures WellFormed(Delivery(id)) && EventOf(Delivery(id)).id == id
  {
    var r := Received(Wire(Delivery(id).message));
    assert r == [Header(DELIVERY_ID_HEADER, id)];
  }

  ghost const X: EventData := EventOf(Delivery("x"))
  ghost const Y: EventData := EventOf(Delivery("y"))

  /** x, relayed at this instant, its time not set. */
  ghost function FlaggedX(since: Time): Obj {
    Obj(X, true, ZERO_TIME, since)
  }

  /** A handler has sent x and not marked it yet; someone else has. */
  ghost predicate SentAndMarkedElsewhere(s: State) {
    && s.heap == [FlaggedX(Since(s.heap, 0))] && s.list == [0] && s.drops == [] && s.clock > RETENTION
    && s.cleaner == Resting && |s.fetchers| > 0 && s.fetchers[0] == Sent([0], 1)
  }

  ghost predicate Reaches(from: State, to: State) {
    exists acts :: Exec(from, acts) == to
  }

  lemma ReachesNext(from: State, s: State, a: Action)
    requires Reaches(from, s)
    ensures Reaches(from, Next(s, a))
  {
    var acts :| Exec(from, acts) == s;
    RunSnoc(from, acts, a);
  }

  lemma ReachesSelf(s: State)
    ensures Reaches(s, s)
  {
    assert Exec(s, []) == s;
  }

  lemma Ids()
    ensures X.id == "x" && Y.id == "y" && X.id != Y.id
    ensures WellFormed(Delivery("x")) && WellFormed(Delivery("y"))
  {
    DeliveryHasId("x");
    DeliveryHasId("y");
    assert X.id[0] != Y.id[0];
  }

  lemma FirstSend(nf: nat, np: nat, start: Time) returns (s: State)
    requires nf >= 1
    ensures s == Init(nf, np, start).(heap := [Obj(X, false, ZERO_TIME, ZERO_TIME)], list := [0],
                                      fetchers := seq(nf, _ => Waiting)[0 := Sent([0], 1)], sent := [0])
    ensures Reaches(Init(nf, np, start), s)
  {
    Ids();
    var from := Init(nf, np, start);
    s := from;
    ReachesSelf(s);
    ReachesNext(from, s, Accept(Delivery("x")));
    s := Next(s, Accept(Delivery("x")));
    assert s.list == [0] && s.heap == [Obj(X, false, ZERO_TIME, ZERO_TIME)];
    ReachesNext(from, s, Fetch(0, true));
    s := Next(s, Fetch(0, true));
    ReachesNext(from, s, Fetch(0, true));
    s := Next(s, Fetch(0, true));
    assert s.fetchers[0] == Collecting([0], 1, [0], 1);
    ReachesNext(from, s, Fetch(0, true));
    s := Next(s, Fetch(0, true));
    ReachesNext(from, s, Fetch(0, true));
    s := Next(s, Fetch(0, true));
    assert s.fetchers == seq(nf, _ => Waiting)[0 := Sent([0], 1)];
  }

  /** Some time passes. */
  lemma Later(from: State, s0: State) returns (s: State)
    requires Reaches(from, s0)
    ensures Reaches(from, s) && s == s0.(clock := s.clock) && s.clock > RETENTION && s.clock >= s0.clock
  {
    var d: nat := if s0.clock > RETENTION then 0 else RETENTION - s0.clock + 1;
    ReachesNext(from, s0, Wait(d));
    s := Next(s0, Wait(d));
  }

  /** A push-relay loop, or a second stream handler, marks x in the meantime. */
  lemma OtherConsumerMarks(nf: nat, np: nat, start: Time) returns (s: State)
    requires nf >= 1 && (np >= 1 || nf >= 2)
    ensures SentAndMarkedElsewhere(s) && Reaches(Init(nf, np, start), s)
  {
    s := FirstSend(nf, np, start);
    s := Later(Init(nf, np, start), s);
    if np >= 1 { s := PusherMarks(Init(nf, np, start), s); } else { s := SecondHandlerMarks(Init(nf, np, start), s); }
  }

  lemma PusherMarks(from: State, s0: State) returns (s: State)
    requires Reaches(from, s0) && s0.heap == [Obj(X, false, ZERO_TIME, ZERO_TIME)] && s0.list == [0]
               && |s0.pushers| > 0 && s0.pushers[0] == Asleep
    ensures Reaches(from, s)
    ensures s == s0.(heap := [FlaggedX(s0.clock)], pushers := s.pushers, calls := s.calls)
  {
    s := s0;
    ReachesNext(from, s, Push(0));
    s := Next(s, Push(0));
    ReachesNext(from, s, Push(0));
    s := Next(s, Push(0));
    assert s.pushers[0] == Pushing([0], 0, true);
    ReachesNext(from, s, Push(0));
    s := Next(s, Push(0));
  }

  lemma SecondHandlerMarks(from: State, s0: State) returns (s: State)
    requires Reaches(from, s0) && s0.heap == [Obj(X, false, ZERO_TIME, ZERO_TIME)] && s0.list == [0]
               && |s0.fetchers| > 1 && s0.fetchers[1] == Waiting
    ensures Reaches(from, s) && |s.fetchers| > 1 && s.fetchers[0] == s0.fetchers[0]
    ensures s == s0.(heap := [FlaggedX(s0.clock)], fetchers := s.fetchers, sent := s.sent)
  {
    s := s0;
    ReachesNext(from, s, Fetch(1, true));
    s := Next(s, Fetch(1, true));
    ReachesNext(from, s, Fetch(1, true));
    s := Next(s, Fetch(1, true));
    assert s.fetchers[1] == Collecting([0], 1, [0], 1);
    ReachesNext(from, s, Fetch(1, true));
    s := Next(s, Fetch(1, true));
    ReachesNext(from, s, Fetch(1, true));
    s := Next(s, Fetch(1, true));
    assert s.fetchers[1] == Sent([0], 1);
    s := HandlerFlags(from, s, 1);
  }

  /** The handler takes the list again and sets the first flag of its batch. */
  lemma HandlerFlags(from: State, s0: State, k: nat) returns (s: State)
    requires Reaches(from, s0) && s0.heap == [Obj(X, false, ZERO_TIME, ZERO_TIME)] && s0.list == [0]
    requires k < |s0.fetchers| && s0.fetchers[k] == Sent([0], 1)
    ensures Reaches(from, s)
    ensures s == s0.(heap := [FlaggedX(s0.clock)], fetchers := s0.fetchers[k := Marking([0], [0], 0, true, 1)])
  {
    s := s0;
    ReachesNext(from, s, Fetch(k, true));
    s := Next(s, Fetch(k, true));
    assert s.fetchers[k] == Marking([0], [0], 0, false, 1);
    ReachesNext(from, s, Fetch(k, true));
    s := Next(s, Fetch(k, true));
  }

  /** Four steps of the cleaner remove a flagged event whose time is still zero. */
  lemma CleanerDropsX(from: State, s0: State) returns (s: State)
    requires Reaches(from, s0) && s0.heap == [FlaggedX(Since(s0.heap, 0))] && s0.list == [0] && s0.drops == []
    requires s0.clock > RETENTION && s0.cleaner == Resting
    ensures Reaches(from, s)
    ensures s == s0.(list := [], drops := [Drop(0, ZERO_TIME, s0.clock)], cleaner := Scanning([0], 1, Untested))
  {
    s := s0;
    ReachesNext(from, s, Clean);
    s := Next(s, Clean);
    ReachesNext(from, s, Clean);
    s := Next(s, Clean);
    ReachesNext(from, s, Clean);
    s := Next(s, Clean);
    assert s.cleaner == Scanning([0], 0, Condemned(ZERO_TIME));
    assert Keep(s0.heap, [0], X.id, 0) == [] && Keep(s0.heap, [0], X.id, 1) == [];
    assert Gone(s.heap, [0], X.id, ZERO_TIME, s.clock, 0) == [];
    assert Gone(s.heap, [0], X.id, ZERO_TIME, s.clock, 1) == [] + [Drop(0, ZERO_TIME, s.clock)];
    ReachesNext(from, s, Clean);
    s := Next(s, Clean);
  }

  lemma AcceptedAgain(from: State, s0: State) returns (s: State)
    requires s0.heap == [FlaggedX(Since(s0.heap, 0))] && s0.list == [] && Reaches(from, s0)
    ensures Reaches(from, s) && s.fetchers == s0.fetchers && s.list == [1, 2]
    ensures s.heap == [s0.heap[0], Obj(Y, false, ZERO_TIME, ZERO_TIME), Obj(X, false, ZERO_TIME, ZERO_TIME)]
  {
    Ids();
    s := s0;
    ReachesNext(from, s, Accept(Delivery("y")));
    s := Next(s, Accept(Delivery("y")));
    assert s.list == [1] && s.heap == [s0.heap[0], Obj(Y, false, ZERO_TIME, ZERO_TIME)];
    assert IdOf(s.heap, 1) == Y.id;
    ReachesNext(from, s, Accept(Delivery("x")));
    s := Next(s, Accept(Delivery("x")));
    assert s.list == [1, 2];
  }

  /** The cleaner removes x, y is accepted and x again; the handler's late mark by ID then
      hits the new x, behind the unrelayed y. */
  lemma StaleMarkBreaksOrder(from: State, s0: State) returns (s: State)
    requires SentAndMarkedElsewhere(s0) && Reaches(from, s0)
    ensures Reaches(from, s) && !RelayedPrefix(s)
  {
    Ids();
    s := CleanerDropsX(from, s0);
    s := AcceptedAgain(from, s);
    ReachesNext(from, s, Fetch(0, true));
    s := Next(s, Fetch(0, true));
    assert s.fetchers[0] == Marking([1, 2], [0], 0, false, 1);
    ReachesNext(from, s, Fetch(0, true));
    s := Next(s, Fetch(0, true));
    assert Flag(s.heap, s.list[1]) && !Flag(s.heap, s.list[0]);
  }

  ghost predicate AlwaysRelayedPrefix(nf: nat, np: nat, start: Time) {
    forall acts :: RelayedPrefix(Exec(Init(nf, np, start), acts))
  }

  /** Relayed events come first on every schedule exactly in the deployments where a
      stream handler has the repository to itself, or there is none. */
  lemma RelayedFirstIffExclusive(nf: nat, np: nat, start: Time)
    ensures AlwaysRelayedPrefix(nf, np, start) <==> nf == 0 || (nf == 1 && np == 0)
  {
    if nf == 0 {
      forall acts ensures RelayedPrefix(Exec(Init(nf, np, start), acts)) {
        RelayedFirstWithoutReacceptance(nf, np, start, acts);
      }
    } else if nf == 1 && np == 0 {
      forall acts ensures RelayedPrefix(Exec(Init(nf, np, start), acts)) {
        OneStreamDelivers(start, acts);
      }
    } else {
      var s0 := OtherConsumerMarks(nf, np, start);
      var s := StaleMarkBreaksOrder(Init(nf, np, start), s0);
      var acts :| Exec(Init(nf, np, start), acts) == s;
    }
  }
}

/** What is under way arrives: from every reachable state of the pipeline its own moves,
    with no new accepts, lead to rest. And what a broken stream or an ended client takes
    with it is gone for good. */
module Arrival {
  import opened Events
  import opened Codec
  import opened CacheSpec
  import opened Protocol
  import opened Safety
  import opened RelayedOrder
  import opened SingleFetch
  import opened Drain
  import opened PushRelay
  import opened Delivery

  /** The moves that carry events on: the handler's steps, its sends succeeding where a
      stream is open; opening a stream; receiving and storing; the client's push relay. */
  ghost predicate Carries(m: Move) {
    m == Server(Fetch(0, true)) || m == Open || m == Receive || m == StoreNext || m == Client(Push(0))
  }

  ghost predicate AllCarry(moves: seq<Move>) {
    forall i :: 0 <= i < |moves| ==> Carries(moves[i])
  }

  /** Everything sent, nothing under way, everything the client took relayed. */
  ghost predicate AtRest(s: System) {
    && |s.server.fetchers| == 1 && s.server.fetchers[0].Waiting? && |s.server.sent| == |s.server.heap|
    && s.channel == [] && s.inbox == [] && |s.client.calls| == |s.client.list|
  }

  // ---------- What is left to do ----------

  /** Fetch ticks still to begin. */
  ghost function TicksLeft(s: System): nat {
    if |s.server.fetchers| != 1 then 0
    else
      var f := s.server.fetchers[0];
      if f.Waiting? then if |s.server.sent| < |s.server.heap| then 1 else 0
      else if s.open && f.upto >= |s.server.heap| then 0 else 1
  }

  ghost function Closed(s: System): nat {
    if s.open then 0 else 1
  }

  /** Steps to the end of the tick in progress, at most. */
  ghost function TickLeft(f: Fetcher): int {
    match f
    case Waiting => 0
    case Collecting(snap, i, batch, _) => 4 + 2 * |batch| + 3 * (|snap| - i)
    case Ready(batch, _) => 3 + 2 * |batch|
    case Sent(batch, _) => 2 + 2 * |batch|
    case Marking(_, batch, j, flagged, _) => 1 + 2 * (|batch| - j) - (if flagged then 1 else 0)
  }

  ghost function Busy(s: System): int {
    if |s.server.fetchers| == 1 then TickLeft(s.server.fetchers[0]) else 0
  }

  ghost function InTransit(s: System): nat {
    |s.inbox| + |Flat(s.channel)| + |s.channel|
  }

  /** The push relay's present scan will come to the next event to relay. */
  ghost predicate WillMeet(snap: seq<nat>, i: nat, o: nat) {
    exists p :: i <= p < |snap| && snap[p] == o
  }

  ghost function ScanLeft(c: State): int {
    if |c.pushers| != 1 then 0
    else
      match c.pushers[0]
      case Asleep => |c.list| + 1
      case Pushing(snap, i, _) => |snap| - i + (if WillMeet(snap, i, |c.calls|) then 0 else |c.list| + 2)
  }

  ghost function Uncalled(s: System): int {
    |s.client.heap| - |s.client.calls|
  }

  /** `t` is nearer to rest than `s`. */
  ghost predicate Nearer(t: System, s: System) {
    || TicksLeft(t) < TicksLeft(s)
    || (TicksLeft(t) == TicksLeft(s) && 0 <= Busy(t) < Busy(s))
    || (TicksLeft(t) == TicksLeft(s) && Busy(t) == Busy(s) && Closed(t) < Closed(s))
    || (TicksLeft(t) == TicksLeft(s) && Busy(t) == Busy(s) && Closed(t) == Closed(s) && NearerClient(t, s))
  }

  ghost predicate NearerClient(t: System, s: System) {
    || InTransit(t) < InTransit(s)
    || (InTransit(t) == InTransit(s) && 0 <= Uncalled(t) < Uncalled(s))
    || (InTransit(t) == InTransit(s) && Uncalled(t) == Uncalled(s) && 0 <= ScanLeft(t.client) < ScanLeft(s.client))
  }

  ghost function NextMove(s: System): Move {
    if s.inbox != [] then StoreNext
    else if s.channel != [] then Receive
    else if |s.server.fetchers| == 1 && !s.server.fetchers[0].Waiting? then Server(Fetch(0, true))
    else if |s.server.sent| < |s.server.heap| then if s.open then Server(Fetch(0, true)) else Open
    else Client(Push(0))
  }
  // ---------- Each move does some of it ----------

  lemma {:induction false} PlayFirst(s: System, m: Move, moves: seq<Move>)
    ensures Play(s, [m] + moves) == Play(Step(s, m), moves)
  {
    hide Step;
    var all := [m] + moves;
    if moves == [] {
      assert all == [m] && [m][..0] == [] && Play(s, []) == s;
    } else {
      var n := |moves| - 1;
      PlayFirst(s, m, moves[..n]);
      assert all[..|all|-1] == [m] + moves[..n] && all[|all|-1] == moves[n];
    }
  }

  lemma {:induction false} PlayAppend(s: System, a: seq<Move>, b: seq<Move>)
    ensures Play(s, a + b) == Play(Play(s, a), b)
  {
    hide Step;
    if b == [] {
      assert a + b == a;
    } else {
      PlayAppend(s, a, b[..|b|-1]);
      assert (a + b)[..|a + b|-1] == a + b[..|b|-1];
    }
  }

  /** What no carrying move changes. */
  ghost predicate SameSource(s: System, t: System) {
    && |t.server.heap| == |s.server.heap| && t.lost == s.lost && t.restarts == s.restarts
    && forall o :: 0 <= o < |s.server.heap| ==> t.server.heap[o].data == s.server.heap[o].data
  }

  lemma HandlerSource(s: System)
    requires SystemInv(s)
    ensures SameSource(s, Step(s, Server(Fetch(0, true))))
  {
    hide OneStream, FlowInv, ClientInv, FetchStep, Inv;
    StreamIsSafe(s.server);
    FetcherMoves(s.server, 0, true);
    FetcherMoves(s.server, 0, false);
  }

  lemma CarriesSource(s: System, m: Move)
    requires SystemInv(s) && Carries(m)
    ensures SameSource(s, Step(s, m))
  {
    hide SystemInv, ServerMove, StoreMove, Next;
    if m.Server? {
      HandlerSource(s);
    } else if m.StoreNext? && s.inbox != [] && s.inbox[0] < |s.server.heap| {
      StoreSource(s);
    }
  }

  lemma StoreSource(s: System)
    requires s.inbox != [] && s.inbox[0] < |s.server.heap|
    ensures SameSource(s, StoreMove(s)) && StoreMove(s).server == s.server && StoreMove(s).open == s.open
    ensures StoreMove(s).inbox == s.inbox[1..] && StoreMove(s).channel == s.channel
  {
    hide Ingest, Hop, Holds;
  }

  /** The handler's next step brings the end of its tick nearer. */
  lemma TickStep(s: State, ok: bool)
    requires OneStream(s) && !s.fetchers[0].Waiting?
    ensures |FetchStep(s, 0, ok).fetchers| == 1
    ensures 0 <= TickLeft(FetchStep(s, 0, ok).fetchers[0]) < TickLeft(s.fetchers[0])
  {
    hide Inv, FlagsUpTo, TimesUpTo, FlagId, StampId, Range, Below, Increasing;
    FetchOneStream(s, ok);
  }

  /** A tick that will send everything still does. */
  lemma TicksFall(s: State)
    requires OneStream(s) && !s.fetchers[0].Waiting? && s.fetchers[0].upto >= |s.heap|
    ensures WillSend(FetchStep(s, 0, true), |FetchStep(s, 0, true).heap|)
  {
    hide OneStream, FetchStep;
    StreamIsSafe(s);
    FetcherMoves(s, 0, true);
    TickGoesOn(s, |s.heap|, Fetch(0, true));
  }

  lemma TickNearer(s: System)
    requires SystemInv(s) && !s.server.fetchers[0].Waiting?
    ensures Nearer(Step(s, Server(Fetch(0, true))), s)
  {
    hide FlowInv, ClientInv, OneStream, FetchStep, TickLeft;
    StreamIsSafe(s.server);
    TickStep(s.server, true);
    TickStep(s.server, false);
    if s.server.fetchers[0].upto >= |s.server.heap| {
      TicksFall(s.server);
    }
  }

  lemma BeginNearer(s: System)
    requires SystemInv(s) && s.server.fetchers[0].Waiting? && s.open && |s.server.sent| < |s.server.heap|
    ensures Nearer(Step(s, Server(Fetch(0, true))), s)
  {
    hide FlowInv, ClientInv, OneStream;
    StreamIsSafe(s.server);
  }

  lemma OpenNearer(s: System)
    requires |s.server.fetchers| == 1 && s.server.fetchers[0].Waiting? && !s.open && s.channel == [] && s.inbox == []
    ensures Nearer(Step(s, Open), s)
  {}

  lemma StoreNearer(s: System)
    requires s.inbox != [] && s.inbox[0] < |s.server.heap|
    ensures Nearer(Step(s, StoreNext), s)
  {
    hide StoreMove;
    StoreSource(s);
  }

  lemma ReceiveNearer(s: System)
    requires s.inbox == [] && s.channel != []
    ensures Nearer(Step(s, Receive), s)
  {}

  /** The push relay's next step brings it nearer to the next call, or makes it. */
  lemma PushNearer(s: System)
    requires SystemInv(s) && |s.client.calls| < |s.client.list|
    ensures Nearer(Step(s, Client(Push(0))), s)
  {
    hide OneStream, FlowInv, FirstOccurrences, HasEvent, Hop, Flat;
    ClientListsAll(s);
    var c, n := s.client, |s.client.calls|;
    assert c.list[n] == n;
    var p := c.pushers[0];
    if p.Pushing? && p.i < |p.snap| && !p.called && !Flag(c.heap, p.snap[p.i]) {
      NextCallIsNext(c);
    }
  }
  lemma NextNearer(s: System)
    requires SystemInv(s) && !AtRest(s)
    ensures Carries(NextMove(s)) && Nearer(Step(s, NextMove(s)), s)
  {
    hide OneStream, FlowInv, ClientInv, Step, Nearer;
    StreamIsSafe(s.server);
    ServerBounds(s.server);
    ClientListsAll(s);
    if s.inbox != [] {
      NextInbox(s);
      StoreNearer(s);
    } else if s.channel != [] {
      ReceiveNearer(s);
    } else if !s.server.fetchers[0].Waiting? {
      TickNearer(s);
    } else if |s.server.sent| < |s.server.heap| {
      if s.open { BeginNearer(s); } else { OpenNearer(s); }
    } else {
      PushNearer(s);
    }
  }

  lemma ServerBounds(s: State)
    requires OneStream(s)
    ensures |s.sent| <= |s.heap|
  {}

  lemma {:induction false} ComeToRest(s: System) returns (moves: seq<Move>)
    requires SystemInv(s)
    ensures AllCarry(moves) && AtRest(Play(s, moves)) && SameSource(s, Play(s, moves))
    decreases TicksLeft(s), Busy(s), Closed(s), InTransit(s), Uncalled(s), ScanLeft(s.client)
  {
    hide SystemInv, AtRest, Step, Carries, NextMove, TicksLeft, Busy, Closed, InTransit, Uncalled, ScanLeft;
    moves := [];
    if !AtRest(s) {
      var m := NextMove(s);
      NextNearer(s);
      StepKeeps(s, m);
      CarriesSource(s, m);
      var rest := ComeToRest(Step(s, m));
      PlayFirst(s, m, rest);
      moves := [m] + rest;
    }
  }

  /** The delivery with this ID has been relayed. */
  ghost predicate HasRelayed(s: System, id: string) {
    exists i :: 0 <= i < |s.client.calls| && IdOf(s.client.heap, s.client.calls[i]) == id
  }

  /** `e` is an accepted event: its body, its ID and its significant headers. */
  ghost predicate Brings(e: EventData, heap: seq<Obj>) {
    exists o :: 0 <= o < |heap| &&
      e.body == heap[o].data.body && e.id == heap[o].data.id && e.headers == NonEmpty(heap[o].data.headers)
  }

  lemma HasCalled(t: System, o: nat)
    requires Reachable(t) && AtRest(t) && t.lost == [] && t.restarts == 0 && o < |t.server.heap|
    ensures HasRelayed(t, t.server.heap[o].data.id)
  {
    hide SystemInv, FirstOccurrences, Hop;
    ReachableKeeps(t);
    RestPlaces(t, o);
    OfferedIsPrefix(t);
    assert t.offered[0..] == t.offered;
    LossIsConfined(t, o);
    ClientListsAll(t);
    var q :| 0 <= q < |t.client.heap| && Datas(t.client.heap)[q].id == IdOf(t.server.heap, o);
    assert t.client.calls[q] == q;
  }

  lemma CallBrings(t: System, i: nat)
    requires Reachable(t) && i < |t.client.calls|
    ensures t.client.calls[i] < |t.client.heap|
    ensures Brings(t.client.heap[t.client.calls[i]].data, t.server.heap)
  {
    hide SystemInv, Hop, Increasing, Relays, NonEmpty;
    ReachableKeeps(t);
    EachAcceptRelayedOnce(t);
    var o := Relays(t)[i];
    assert Relayed(t)[i] == t.client.heap[t.client.calls[i]].data;
    SameIdAfterHop(t, o);
    HopIsLossless(t.server.heap[o].data);
    assert t.client.heap[t.client.calls[i]].data.body == t.server.heap[o].data.body;
  }

  lemma BringsSame(h: seq<Obj>, h': seq<Obj>)
    requires |h'| == |h| && forall o :: 0 <= o < |h| ==> h'[o].data == h[o].data
    ensures forall e :: Brings(e, h') ==> Brings(e, h)
  {}

  lemma RestReads(t: System)
    requires Reachable(t) && AtRest(t) && t.lost == [] && t.restarts == 0
    ensures forall o :: 0 <= o < |t.server.heap| ==> HasRelayed(t, t.server.heap[o].data.id)
    ensures Below(t.client.calls, |t.client.heap|)
    ensures forall i :: 0 <= i < |t.client.calls| ==> Brings(t.client.heap[t.client.calls[i]].data, t.server.heap)
  {
    hide Reachable, AtRest, HasRelayed, Brings;
    forall o | 0 <= o < |t.server.heap| ensures HasRelayed(t, t.server.heap[o].data.id) { HasCalled(t, o); }
    forall i | 0 <= i < |t.client.calls|
      ensures t.client.calls[i] < |t.client.heap|
      ensures Brings(t.client.heap[t.client.calls[i]].data, t.server.heap)
    {
      CallBrings(t, i);
    }
  }

  // ---------- Theorems ----------

  /** Rest can be reached. From every reachable state there are moves, none of which
      accepts an event, breaks a stream or ends a client, to a state in which all that the
      server had accepted is sent, nothing is under way and the client has relayed all it
      took. There each accepted event was handed to a client or lost before, not both. If
      nothing was lost and no client was restarted, the client caches and has relayed
      exactly the first occurrences in the accept log: every accepted delivery ID, and
      nothing that was not accepted. */
  lemma {:induction false} RestIsReachable(s: System) returns (moves: seq<Move>)
    requires Reachable(s)
    ensures forall i :: 0 <= i < |moves| ==>
              moves[i] == Server(Fetch(0, true)) || moves[i] == Open || moves[i] == Receive || moves[i] == StoreNext
              || moves[i] == Client(Push(0))
    ensures var t := Play(s, moves);
            && Reachable(t) && |t.server.sent| == |t.server.heap| == |s.server.heap|
            && t.channel == [] && t.inbox == [] && |t.client.calls| == |t.client.list|
            && t.lost == s.lost && t.restarts == s.restarts
            && forall o :: 0 <= o < |s.server.heap| ==> t.server.heap[o].data == s.server.heap[o].data
    ensures forall o :: 0 <= o < |s.server.heap| ==> (o in Play(s, moves).offered) != (o in s.lost)
    ensures var t := Play(s, moves);
            s.lost == [] && s.restarts == 0 ==>
              && Datas(t.client.heap) == FirstOccurrences(AcceptLog(s))
              && Below(t.client.calls, |t.client.heap|) && Relayed(t) == FirstOccurrences(AcceptLog(s))
    ensures var t := Play(s, moves);
            s.lost == [] && s.restarts == 0 ==>
              && (forall o :: 0 <= o < |s.server.heap| ==> HasRelayed(t, s.server.heap[o].data.id))
              && (forall i :: 0 <= i < |t.client.calls| ==>
                  Brings(t.client.heap[t.client.calls[i]].data, s.server.heap))
  {
    hide SystemInv, AtRest, Step, FirstOccurrences, Hop, Play;
    ReachableKeeps(s);
    moves := ComeToRest(s);
    var t := Play(s, moves);
    PlayReachable(s, moves);
    RestMeans(t);
    forall o | 0 <= o < |s.server.heap| ensures (o in t.offered) != (o in s.lost) {
      RestPlaces(t, o);
    }
    if s.lost == [] && s.restarts == 0 {
      EverythingArrives(t);
      assert AcceptLog(t) == AcceptLog(s);
      RestReads(t);
      BringsSame(s.server.heap, t.server.heap);
    }
  }

  lemma RestMeans(t: System)
    requires AtRest(t)
    ensures |t.server.sent| == |t.server.heap| && t.channel == [] && t.inbox == []
    ensures |t.client.calls| == |t.client.list|
  {}

  lemma RestPlaces(t: System, o: nat)
    requires Reachable(t) && AtRest(t) && o < |t.server.heap|
    ensures (o in t.offered) != (o in t.lost)
  {
    hide SystemInv;
    ReachableKeeps(t);
    AllSent(t, o);
    LossIsConfined(t, o);
  }

  lemma AllSent(t: System, o: nat)
    requires SystemInv(t) && |t.server.sent| == |t.server.heap| && o < |t.server.heap|
    ensures o in t.server.sent
  {
    InRange(t.server.sent, o);
  }

  lemma PlayReachable(s: System, moves: seq<Move>)
    requires Reachable(s)
    ensures Reachable(Play(s, moves))
  {
    hide Play, Start;
    var serverClock, clientClock, before :| Play(Start(serverClock, clientClock), before) == s;
    PlayAppend(Start(serverClock, clientClock), before, moves);
  }
  /** No accepted event had this ID. */
  ghost predicate NeverAccepted(heap: seq<Obj>, id: string) {
    forall o :: 0 <= o < |heap| ==> heap[o].data.id != id
  }

  /** A delivery that comes in, by whatever way, can be relayed at the other end: from every
      reachable state in which nothing was lost and no client was restarted there are moves
      that accept it, and then accept nothing more, after which its ID has been relayed; and
      if its ID is new, what was relayed under that ID is this very event, with its body
      and its significant headers. */
  lemma {:induction false} AcceptedIsRelayed(s: System, source: Ingress) returns (moves: seq<Move>)
    requires Reachable(s) && s.lost == [] && s.restarts == 0 && WellFormed(source)
    ensures moves != [] && moves[0] == Server(Accept(source)) && AllCarry(moves[1..])
    ensures var t := Play(s, moves);
            && Reachable(t) && t.lost == [] && t.restarts == 0 && HasRelayed(t, EventOf(source).id)
            && (NeverAccepted(s.server.heap, EventOf(source).id) ==>
                exists i :: 0 <= i < |t.client.calls| && t.client.calls[i] < |t.client.heap| &&
                  var d := t.client.heap[t.client.calls[i]].data;
                  && d.id == EventOf(source).id && d.body == EventOf(source).body
                  && d.headers == NonEmpty(EventOf(source).headers))
  {
    hide Play, Reachable, Brings, AcceptLog, Relayed, Datas, FirstOccurrences, EventOf, WellFormed, NonEmpty;
    var m, e := Server(Accept(source)), EventOf(source);
    AcceptStep(s, source);
    var s1 := Step(s, m);
    var more := RestIsReachable(s1);
    moves := [m] + more;
    PlayFirst(s, m, more);
    var t := Play(s, moves);
    var o := AcceptedAs(s, s1, e);
    assert HasRelayed(t, s1.server.heap[o].data.id);
    if NeverAccepted(s.server.heap, e.id) {
      var i :| 0 <= i < |t.client.calls| && IdOf(t.client.heap, t.client.calls[i]) == e.id;
      OnlyThis(s, s1, e, t.client.heap[t.client.calls[i]].data);
    }
  }

  lemma AcceptStep(s: System, source: Ingress)
    requires Reachable(s) && WellFormed(source)
    ensures var s1 := Step(s, Server(Accept(source)));
            && Reachable(s1) && s1 == s.(server := Ingest(s.server, EventOf(source)))
  {
    hide Reachable, Ingest, EventOf, WellFormed;
    PlayReachable(s, [Server(Accept(source))]);
    PlayFirst(s, Server(Accept(source)), []);
  }

  /** The accept that the delivery ID stands for now: this one, or one still listed. */
  lemma AcceptedAs(s: System, s1: System, e: EventData) returns (o: nat)
    requires Reachable(s) && s1 == s.(server := Ingest(s.server, e))
    ensures o < |s1.server.heap| && s1.server.heap[o].data.id == e.id
  {
    hide Reachable, SystemInv, OneStream;
    ReachableKeeps(s);
    ServerLists(s);
    o := |s.server.heap|;
    if Holds(s.server.heap, s.server.list, e.id) {
      var i :| 0 <= i < |s.server.list| && IdOf(s.server.heap, s.server.list[i]) == e.id;
      o := s.server.list[i];
    }
  }

  lemma ServerLists(s: System)
    requires SystemInv(s)
    ensures Below(s.server.list, |s.server.heap|)
  {
    hide FlowInv, ClientInv;
  }

  lemma OnlyThis(s: System, s1: System, e: EventData, d: EventData)
    requires s1 == s.(server := Ingest(s.server, e)) && NeverAccepted(s.server.heap, e.id)
    requires Brings(d, s1.server.heap) && d.id == e.id
    ensures d.body == e.body && d.headers == NonEmpty(e.headers)
  {
    hide Holds, NonEmpty;
  }

  // ---------- The server's part of a run ----------

  ghost function ServerMoves(acts: seq<Action>): seq<Move> {
    seq(|acts|, i requires 0 <= i < |acts| => Server(acts[i]))
  }

  /** While a stream is open and the sends succeed, the server's part of a run is any
      schedule of the machine with one stream handler, ingest and cleaner; the client sees
      nothing of it but what is sent, all of it and in order. */
  lemma {:induction false} ServerRunsSchedules(s: System, acts: seq<Action>)
    requires SystemInv(s) && s.open && SendsSucceed(acts)
    ensures var t := Play(s, ServerMoves(acts));
            && t.server == Exec(s.server, acts) && s.server.sent <= t.server.sent
            && Flat(t.channel) == Flat(s.channel) + t.server.sent[|s.server.sent|..]
            && t == s.(server := t.server, channel := t.channel) && SystemInv(t)
  {
    hide SystemInv, Next, ServerMove, Flat;
    if acts == [] {
      assert Flat(s.channel) + [] == Flat(s.channel);
    } else {
      var front, a := acts[..|acts|-1], acts[|acts|-1];
      ServerRunsSchedules(s, front);
      assert ServerMoves(acts)[..|acts|-1] == ServerMoves(front) && ServerMoves(acts)[|acts|-1] == Server(a);
      var mid := Play(s, ServerMoves(front));
      StepKeeps(mid, Server(a));
      OpenServerStep(mid, a);
      var t := Step(mid, Server(a));
      assert t.server.sent[|s.server.sent|..] ==
             mid.server.sent[|s.server.sent|..] + t.server.sent[|mid.server.sent|..];
    }
  }

  lemma OpenServerStep(s: System, a: Action)
    requires SystemInv(s) && s.open && (a.Fetch? ==> a.ok)
    ensures var t := ServerMove(s, a);
            && t.server == Next(s.server, a) && t == s.(server := t.server, channel := t.channel)
            && s.server.sent <= t.server.sent
            && Flat(t.channel) == Flat(s.channel) + t.server.sent[|s.server.sent|..]
  {
    hide OneStream, FlowInv, ClientInv, FetchStep, Inv;
    StreamIsSafe(s.server);
    assert Flat(s.channel) + [] == Flat(s.channel);
    if a.Fetch? && a.k == 0 {
      if s.server.fetchers[0].Ready? {
        SendMoves(s.server);
        FlatSnoc(s.channel, s.server.fetchers[0].batch);
      } else {
        NotSent(s.server, true);
      }
    } else {
      NothingSent(s.server, a);
    }
  }

  // ---------- What does not arrive ----------

  lemma StepLoses(s: System, m: Move)
    requires SystemInv(s)
    ensures s.lost <= Step(s, m).lost && |s.server.heap| <= |Step(s, m).server.heap|
    ensures forall o :: o in s.server.sent ==> o in Step(s, m).server.sent
  {
    hide OneStream, FlowInv, ClientInv, Next, FetchStep, Ingest, Hop, Flat, Relays;
    StepKeeps(s, m);
    match m
    case Server(a) =>
      ServerSpares(s, a);
      ServerGrows(s, a);
      ServerSends(s, a);
    case _ =>
  }

  lemma ServerSends(s: System, a: Action)
    requires SystemInv(s)
    ensures forall o :: o in s.server.sent ==> o in ServerMove(s, a).server.sent
  {
    hide OneStream, FlowInv, ClientInv, Next, Inv;
    StreamIsSafe(s.server);
    if !(a.Fetch? && a.k == 0) { NothingSent(s.server, a); }
  }

  lemma {:induction false} PlayLoses(s: System, moves: seq<Move>)
    requires SystemInv(s)
    ensures SystemInv(Play(s, moves)) && s.lost <= Play(s, moves).lost
    ensures |s.server.heap| <= |Play(s, moves).server.heap|
    ensures forall o :: o in s.server.sent ==> o in Play(s, moves).server.sent
  {
    hide SystemInv, Step;
    if moves == [] {
    } else {
      var front := moves[..|moves|-1];
      PlayLoses(s, front);
      StepKeeps(Play(s, front), moves[|moves|-1]);
      StepLoses(Play(s, front), moves[|moves|-1]);
    }
  }

  /** What is in the stream when it breaks, and what is in the stream or received and not
      yet stored when the client ends, never reaches a client: not on any continuation,
      although the server has sent it, and will mark it, as if it had arrived. */
  lemma {:induction false} LostForGood(s: System, m: Move, o: nat, moves: seq<Move>)
    requires Reachable(s)
    requires (m == Break && o in Flat(s.channel)) || (m == Restart && (o in Flat(s.channel) || o in s.inbox))
    ensures var t := Play(Step(s, m), moves);
            o in t.server.sent && o in t.lost && o !in t.offered && o !in t.inbox && o !in Flat(t.channel)
  {
    hide SystemInv, Play, Flat, Start;
    ReachableKeeps(s);
    InFlight(s, o);
    var t := Play(Step(s, m), moves);
    StepKeeps(s, m);
    PlayLoses(Step(s, m), moves);
    StepLoses(s, m);
    PlayFirst(s, m, moves);
    PlayReachable(s, [m] + moves);
    assert o in Step(s, m).lost;
    LossIsConfined(t, o);
  }

  lemma InFlight(s: System, o: nat)
    requires SystemInv(s) && (o in Flat(s.channel) || o in s.inbox)
    ensures o in s.server.sent && o < |s.server.heap|
  {
    hide OneStream, ClientInv, Flat;
    SentBounds(s.server);
    assert o in multiset(Pipe(s));
    assert o in multiset(s.server.sent);
  }

  lemma SentBounds(s: State)
    requires OneStream(s)
    ensures forall o :: o in s.sent ==> o < |s.heap|
  {}

  lemma {:induction false} ClosedStays(s: System, moves: seq<Move>)
    requires SystemInv(s) && !s.open && Open !in moves
    ensures var t := Play(s, moves);
            && SystemInv(t) && !t.open && t.server.sent == s.server.sent
            && |t.channel| <= |s.channel|
            && (s.server.fetchers[0].Waiting? ==> t.server.fetchers == s.server.fetchers)
  {
    hide SystemInv, Step;
    if moves == [] {
    } else {
      var front, m := moves[..|moves|-1], moves[|moves|-1];
      assert forall x :: x in front ==> x in moves;
      ClosedStays(s, front);
      StepKeeps(Play(s, front), m);
      ClosedStep(Play(s, front), m);
    }
  }

  lemma ClosedStep(s: System, m: Move)
    requires SystemInv(s) && !s.open && m != Open
    ensures var t := Step(s, m);
            && !t.open && t.server.sent == s.server.sent && |t.channel| <= |s.channel|
            && (s.server.fetchers[0].Waiting? ==> t.server.fetchers == s.server.fetchers)
  {
    hide OneStream, FlowInv, ClientInv, Next, FetchStep, Ingest, Hop, Flat, Relays, Inv;
    StreamIsSafe(s.server);
    match m
    case Server(a) =>
      if a.Fetch? && a.k == 0 {
        if s.server.fetchers[0].Ready? { NotSent(s.server, false); } else { NotSent(s.server, true); }
      } else {
        NothingSent(s.server, a);
        OtherActions(s.server, a);
      }
    case _ =>
  }

  lemma OtherActions(s: State, a: Action)
    requires |s.fetchers| == 1 && !(a.Fetch? && a.k == 0)
    ensures Next(s, a).fetchers == s.fetchers
  {
    hide Keep, Gone, Holds, EventOf, WellFormed;
  }

  /** When a stream has ended, by its window, by a break or with the client, nothing more is
      sent until another is opened; and a handler that is at rest stays so. */
  lemma {:induction false} ClosedStreamIsQuiet(s: System, m: Move, moves: seq<Move>)
    requires Reachable(s) && |s.server.fetchers| == 1
    requires m == Break || m == Restart || (m == Finish && s.server.fetchers[0].Waiting?)
    requires Open !in moves
    ensures var t := Play(Step(s, m), moves);
            t.server.sent == s.server.sent && (s.server.fetchers[0].Waiting? ==> t.server.fetchers == s.server.fetchers)
  {
    hide SystemInv, Play, Flat;
    ReachableKeeps(s);
    StepKeeps(s, m);
    ClosedStays(Step(s, m), moves);
  }
  lemma {:induction false} PastStays(s: System, moves: seq<Move>)
    ensures s.past <= Play(s, moves).past
  {
    hide Next, ServerMove, StoreMove, Relays, Flat;
    if moves == [] {
    } else {
      PastStays(s, moves[..|moves|-1]);
      StepPast(Play(s, moves[..|moves|-1]), moves[|moves|-1]);
    }
  }

  lemma StepPast(s: System, m: Move)
    ensures s.past <= Step(s, m).past
  {
    hide Next, FetchStep, Relays, Flat, Ingest, Hop;
  }

  /** What an ended client process relayed stays on record, call by call, on every
      continuation; the next process starts with nothing cached and nothing relayed. */
  lemma {:induction false} RelaysOnRecord(s: System, moves: seq<Move>)
    requires Reachable(s)
    ensures var t := Play(Step(s, Restart), moves);
            && s.past <= t.past && |t.past| >= |s.past| + |s.client.calls|
            && forall i :: 0 <= i < |s.client.calls| ==>
                 var o, c := t.past[|s.past| + i], s.client.calls[i];
                 o < |s.server.heap| && c < |s.client.heap| && Hop(s.server.heap[o].data) == s.client.heap[c].data
    ensures var t := Step(s, Restart); t.client.list == [] && t.client.calls == []
  {
    hide Play, Hop, Flat, Relays, Reachable, Increasing;
    EachAcceptRelayedOnce(s);
    PastStays(Step(s, Restart), moves);
    var t := Play(Step(s, Restart), moves);
    assert s.past + Relays(s) <= t.past;
    forall i | 0 <= i < |s.client.calls|
      ensures t.past[|s.past| + i] == Relays(s)[i] && Relayed(s)[i] == s.client.heap[s.client.calls[i]].data
    {
      assert (s.past + Relays(s))[|s.past| + i] == Relays(s)[i];
    }
  }
}

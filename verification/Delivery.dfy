/** The whole pipeline: a server whose repository is served by one stream at a time, the
    stream, and a client process that caches what it receives and relays it. */
module Delivery {
  import opened Events
  import opened Codec
  import opened CacheSpec
  import opened Protocol
  import opened Safety
  import opened RelayedOrder
  import opened SingleFetch
  import opened Drain
  import opened PushRelay

  /** Events are named by their accept number at the server. `offered`, `lost`, `restarts`
      and `stored` are history: events the client handed to its cache, events in flight
      when a stream or a client process ended, and what client caches ever took in; `base`
      is how many had been offered when the present client process began; `origins` names,
      for each event the present client took, the accept it came from, and `past` lists the
      accepts that earlier client processes relayed, in the order of their calls. */
  datatype System = System(
    server: State, open: bool, channel: seq<seq<nat>>, inbox: seq<nat>, client: State,
    offered: seq<nat>, lost: seq<nat>, restarts: nat, stored: seq<EventData>, base: nat,
    origins: seq<nat>, past: seq<nat>)

  datatype Move =
    | Server(a: Action)
    | Client(a: Action)
    | Open
    | Finish
    | Break
    | Receive
    | StoreNext
    | Restart

  ghost function Flat(channel: seq<seq<nat>>): seq<nat> {
    if channel == [] then [] else channel[0] + Flat(channel[1..])
  }

  /** The accepts behind the relay calls of the present client process. */
  ghost function Relays(s: System): seq<nat> {
    seq(|s.client.calls|, i requires 0 <= i < |s.client.calls| => Origin(s.origins, s.client.calls[i]))
  }

  ghost function Origin(origins: seq<nat>, c: nat): nat {
    if c < |origins| then origins[c] else 0
  }

  /** A handler runs only on an open stream, and can send only while it is open; a failed
      send ends the stream. */
  ghost function ServerMove(s: System, a: Action): System {
    if a.Fetch? && |s.server.fetchers| == 1 && a.k == 0 then
      var f := s.server.fetchers[0];
      if f.Waiting? && !s.open then s
      else if f.Ready? then
        if a.ok && s.open
        then s.(server := FetchStep(s.server, 0, true), channel := s.channel + [f.batch])
        else s.(server := FetchStep(s.server, 0, false), open := false)
      else s.(server := FetchStep(s.server, 0, true))
    else s.(server := Next(s.server, a))
  }

  /** The client decodes the next event of the response and hands it to its cache. */
  ghost function StoreMove(s: System): System
    requires s.inbox != [] && s.inbox[0] < |s.server.heap|
  {
    var e := Hop(s.server.heap[s.inbox[0]].data);
    s.(inbox := s.inbox[1..], offered := s.offered + [s.inbox[0]], client := Ingest(s.client, e),
       stored := if Holds(s.client.heap, s.client.list, e.id) then s.stored else s.stored + [e],
       origins := if Holds(s.client.heap, s.client.list, e.id) then s.origins else s.origins + [s.inbox[0]])
  }

  ghost function Step(s: System, m: Move): System {
    match m
    case Server(a) => ServerMove(s, a)
    case Client(a) => if a.Push? || a.Wait? then s.(client := Next(s.client, a)) else s
    case Open =>
      if s.channel == [] && s.inbox == [] && |s.server.fetchers| == 1 && s.server.fetchers[0].Waiting?
      then s.(open := true) else s
    case Finish =>
      if |s.server.fetchers| == 1 && s.server.fetchers[0].Waiting? then s.(open := false) else s
    case Break => s.(open := false, lost := s.lost + Flat(s.channel), channel := [])
    case Receive =>
      if s.inbox == [] && s.channel != [] then s.(inbox := s.channel[0], channel := s.channel[1..]) else s
    case StoreNext =>
      if s.inbox != [] && s.inbox[0] < |s.server.heap| then StoreMove(s) else s
    case Restart =>
      s.(open := false, lost := s.lost + s.inbox + Flat(s.channel), inbox := [], channel := [],
         client := Init(0, 1, s.client.clock), restarts := s.restarts + 1, base := |s.offered|,
         origins := [], past := s.past + Relays(s))
  }

  ghost function Play(s: System, moves: seq<Move>): System {
    if moves == [] then s else Step(Play(s, moves[..|moves|-1]), moves[|moves|-1])
  }

  ghost function Start(serverClock: Time, clientClock: Time): System {
    System(Init(1, 0, serverClock), false, [], [], Init(0, 1, clientClock), [], [], 0, [], 0, [], [])
  }

  // ---------- Invariant ----------

  /** What has left the server and was not lost, in order. */
  ghost function Pipe(s: System): seq<nat> {
    s.offered + s.inbox + Flat(s.channel)
  }

  /** The decoded events of these accept numbers. */
  ghost function Arrived(heap: seq<Obj>, xs: seq<nat>): seq<EventData>
    requires Below(xs, |heap|)
  {
    seq(|xs|, i requires 0 <= i < |xs| => Hop(heap[xs[i]].data))
  }

  ghost function Datas(heap: seq<Obj>): seq<EventData> {
    seq(|heap|, o requires 0 <= o < |heap| => heap[o].data)
  }

  /** Every sent event is offered, in flight or lost, exactly once; nothing overtakes. */
  ghost predicate FlowInv(s: System) {
    && multiset(Pipe(s)) + multiset(s.lost) == multiset(s.server.sent)
    && Increasing(Pipe(s)) && Below(Pipe(s), |s.server.sent|)
    && (s.lost == [] ==> Pipe(s) == s.server.sent)
  }

  ghost predicate ClientInv(s: System) {
    && OnePusher(s.client) && s.client.drops == [] && s.client.cleaner.Resting?
    && Below(s.offered, |s.server.heap|)
    && s.base <= |s.offered| && (s.restarts == 0 ==> s.base == 0)
    && Datas(s.client.heap) == FirstOccurrences(Arrived(s.server.heap, s.offered[s.base..]))
    && HistoryInv(s)
  }

  /** Every ID handed to a client cache, or held by the present one, was taken by one. */
  ghost predicate HistoryInv(s: System) {
    && (forall i :: 0 <= i < |s.offered| ==> HasEvent(s.stored, IdOf(s.server.heap, s.offered[i])))
    && (forall o :: 0 <= o < |s.client.heap| ==> HasEvent(s.stored, s.client.heap[o].data.id))
  }

  ghost predicate SystemInv(s: System) {
    OneStream(s.server) && FlowInv(s) && ClientInv(s)
  }

  // ---------- Its proof ----------

  lemma {:induction false} FlatSnoc(channel: seq<seq<nat>>, batch: seq<nat>)
    ensures Flat(channel + [batch]) == Flat(channel) + batch
  {
    if channel == [] {
      assert Flat([batch]) == batch + Flat([]);
    } else {
      FlatSnoc(channel[1..], batch);
      assert (channel + [batch])[1..] == channel[1..] + [batch];
    }
  }

  /** Server moves that send nothing. */
  lemma QuietServer(s: System, s': System)
    requires SystemInv(s) && OneStream(s'.server) && s'.server.sent == s.server.sent
               && Grows(s.server.heap, s'.server.heap)
    requires s' == s.(server := s'.server, open := s'.open)
    ensures SystemInv(s')
  {
    hide OneStream, FlowInv, ClientInv, Pipe, Grows;
    PipeOf(s, s');
    SameFlow(s, s');
    GrownServer(s, s');
  }

  lemma GrownServer(s: System, s': System)
    requires ClientInv(s) && Grows(s.server.heap, s'.server.heap) && s' == s.(server := s'.server, open := s'.open)
    ensures ClientInv(s')
  {
    hide OnePusher, FirstOccurrences, HasEvent, Hop, Datas;
    assert Arrived(s'.server.heap, s.offered[s.base..]) == Arrived(s.server.heap, s.offered[s.base..]);
    assert forall i :: 0 <= i < |s.offered| ==> IdOf(s'.server.heap, s.offered[i]) == IdOf(s.server.heap, s.offered[i]);
  }

  lemma SendKeeps(s: System)
    requires SystemInv(s) && s.server.fetchers[0].Ready?
    ensures SystemInv(s.(server := FetchStep(s.server, 0, true), channel := s.channel + [s.server.fetchers[0].batch]))
  {
    hide OneStream, FlowInv, ClientInv, FetchStep;
    StreamIsSafe(s.server);
    var f := s.server.fetchers[0];
    var s' := s.(server := FetchStep(s.server, 0, true), channel := s.channel + [f.batch]);
    FetchOneStream(s.server, true);
    SendMoves(s.server);
    FlatSnoc(s.channel, f.batch);
    assert Pipe(s') == Pipe(s) + f.batch;
    SendFlows(s, s', f.batch);
    SentClient(s, s');
  }

  lemma SendMoves(s: State)
    requires OneStream(s) && s.fetchers[0].Ready?
    ensures var f := s.fetchers[0];
            && FetchStep(s, 0, true).sent == s.sent + f.batch && FetchStep(s, 0, true).heap == s.heap
            && f.batch == Range(|s.sent|, |s.sent| + |f.batch|)
  {
    hide Inv, FlagsUpTo, TimesUpTo;
  }

  lemma SentClient(s: System, s': System)
    requires ClientInv(s) && s'.server.heap == s.server.heap && s' == s.(server := s'.server, channel := s'.channel)
    ensures ClientInv(s')
  {
    hide OnePusher, FirstOccurrences, HasEvent, Datas, Arrived, Below;
  }

  lemma SendFlows(s: System, s': System, batch: seq<nat>)
    requires FlowInv(s) && Pipe(s') == Pipe(s) + batch && s'.lost == s.lost && s'.server.sent == s.server.sent + batch
    requires batch == Range(|s.server.sent|, |s.server.sent| + |batch|)
    ensures FlowInv(s')
  {
    assert forall i :: 0 <= i < |batch| ==> batch[i] == |s.server.sent| + i;
  }

  lemma ServerKeeps(s: System, a: Action)
    requires SystemInv(s)
    ensures SystemInv(ServerMove(s, a))
  {
    hide OneStream, FlowInv, ClientInv, Next, FetchStep, Inv;
    StreamIsSafe(s.server);
    if a.Fetch? && a.k == 0 {
      HandlerKeeps(s, a.ok);
    } else {
      NextOneStream(s.server, a);
      NextKeeps(s.server, a);
      NothingSent(s.server, a);
      QuietServer(s, ServerMove(s, a));
    }
  }

  lemma NothingSent(s: State, a: Action)
    requires |s.fetchers| == 1 && !(a.Fetch? && a.k == 0)
    ensures Next(s, a).sent == s.sent
  {
    hide Keep, Gone, Holds, EventOf, WellFormed;
  }

  lemma HandlerKeeps(s: System, ok: bool)
    requires SystemInv(s)
    ensures SystemInv(ServerMove(s, Fetch(0, ok)))
  {
    hide OneStream, FlowInv, ClientInv, FetchStep, Inv;
    StreamIsSafe(s.server);
    var f, s' := s.server.fetchers[0], ServerMove(s, Fetch(0, ok));
    if f.Ready? && ok && s.open {
      SendKeeps(s);
    } else if s' != s {
      var sends := !f.Ready?;
      FetchOneStream(s.server, sends);
      FetchKeeps(s.server, 0, sends);
      NotSent(s.server, sends);
      QuietServer(s, s');
    }
  }

  lemma NotSent(s: State, ok: bool)
    requires |s.fetchers| == 1 && (s.fetchers[0].Ready? ==> !ok)
    ensures FetchStep(s, 0, ok).sent == s.sent
  {
    hide FlagId, StampId;
  }

  lemma ClientHolds(c: State, id: string)
    requires Inv(c) && c.drops == []
    ensures Holds(c.heap, c.list, id) <==> HasEvent(Datas(c.heap), id)
  {
    WholeLog(c);
    if Holds(c.heap, c.list, id) {
      var i :| 0 <= i < |c.list| && IdOf(c.heap, c.list[i]) == id;
      assert Datas(c.heap)[i].id == id;
    }
    if HasEvent(Datas(c.heap), id) {
      var o :| 0 <= o < |c.heap| && Datas(c.heap)[o].id == id;
      assert IdOf(c.heap, c.list[o]) == id;
    }
  }

  lemma NextInbox(s: System)
    requires SystemInv(s) && s.inbox != []
    ensures s.inbox[0] < |s.server.heap| && Coherent(s.server.heap[s.inbox[0]].data)
  {
    assert Pipe(s)[|s.offered|] == s.inbox[0];
  }

  lemma StoreClient(s: System)
    requires SystemInv(s) && s.inbox != [] && s.inbox[0] < |s.server.heap|
    ensures ClientInv(StoreMove(s))
  {
    hide OneStream, Hop, Ingest, Holds, Coherent, HasEvent, FirstOccurrences;
    NextInbox(s);
    var o := s.inbox[0];
    var e, s' := Hop(s.server.heap[o].data), StoreMove(s);
    HopKeepsCoherence(s.server.heap[o].data);
    IngestClient(s.client, e);
    hide OnePusher;
    StoreDatas(s, s', e);
    StoreHistory(s, s', e);
  }

  lemma StoreDatas(s: System, s': System, e: EventData)
    requires s.inbox != [] && s.inbox[0] < |s.server.heap| && e == Hop(s.server.heap[s.inbox[0]].data)
    requires s'.server == s.server && s'.offered == s.offered + [s.inbox[0]] && Below(s.offered, |s.server.heap|)
    requires s'.base == s.base <= |s.offered|
    requires s'.client.heap == if HasEvent(Datas(s.client.heap), e.id) then s.client.heap
               else s.client.heap + [Obj(e, false, ZERO_TIME, ZERO_TIME)]
    ensures Datas(s.client.heap) == FirstOccurrences(Arrived(s.server.heap, s.offered[s.base..])) ==>
              Datas(s'.client.heap) == FirstOccurrences(Arrived(s'.server.heap, s'.offered[s.base..]))
  {
    hide Hop;
    var before, after := Arrived(s.server.heap, s.offered[s.base..]), Arrived(s.server.heap, s'.offered[s.base..]);
    assert s'.offered[s.base..] == s.offered[s.base..] + [s.inbox[0]];
    assert after == before + [e] && after[..|before|] == before;
    assert Datas(s.client.heap + [Obj(e, false, ZERO_TIME, ZERO_TIME)]) == Datas(s.client.heap) + [e];
  }

  lemma StoreHistory(s: System, s': System, e: EventData)
    requires HistoryInv(s) && s.inbox != [] && s.inbox[0] < |s.server.heap| && IdOf(s.server.heap, s.inbox[0]) == e.id
    requires s'.server == s.server && s'.offered == s.offered + [s.inbox[0]]
    requires s'.client.heap == if HasEvent(Datas(s.client.heap), e.id) then s.client.heap
               else s.client.heap + [Obj(e, false, ZERO_TIME, ZERO_TIME)]
    requires s'.stored == if HasEvent(Datas(s.client.heap), e.id) then s.stored else s.stored + [e]
    ensures HistoryInv(s')
  {
    StoredGrows(s.stored, e);
    if HasEvent(Datas(s.client.heap), e.id) {
      var o :| 0 <= o < |s.client.heap| && Datas(s.client.heap)[o].id == e.id;
      assert HasEvent(s.stored, s.client.heap[o].data.id);
    }
  }

  lemma StoredGrows(stored: seq<EventData>, e: EventData)
    ensures HasEvent(stored + [e], e.id)
    ensures forall id :: HasEvent(stored, id) ==> HasEvent(stored + [e], id)
  {
    assert (stored + [e])[|stored|] == e;
    forall id | HasEvent(stored, id) ensures HasEvent(stored + [e], id) {
      var i :| 0 <= i < |stored| && stored[i].id == id;
      assert (stored + [e])[i].id == id;
    }
  }

  lemma IngestClient(c: State, e: EventData)
    requires OnePusher(c) && Coherent(e)
    requires c.drops == []
    ensures OnePusher(Ingest(c, e)) && Ingest(c, e).drops == c.drops && Ingest(c, e).cleaner == c.cleaner
    ensures Holds(c.heap, c.list, e.id) <==> HasEvent(Datas(c.heap), e.id)
    ensures Ingest(c, e).heap == if HasEvent(Datas(c.heap), e.id) then c.heap
              else c.heap + [Obj(e, false, ZERO_TIME, ZERO_TIME)]
  {
    ClientHolds(c, e.id);
    IngestKeeps(c, e);
    OrdersGrow(c.heap, Ingest(c, e).heap);
  }

  lemma StoreKeeps(s: System)
    requires SystemInv(s) && s.inbox != []
    ensures s.inbox[0] < |s.server.heap| && SystemInv(StoreMove(s))
  {
    hide OneStream, FlowInv, ClientInv, StoreMove, Pipe;
    NextInbox(s);
    StoreClient(s);
    StoreShifts(s);
    SameFlow(s, StoreMove(s));
  }

  lemma StoreShifts(s: System)
    requires s.inbox != [] && s.inbox[0] < |s.server.heap|
    ensures var s' := StoreMove(s); s'.server == s.server && s'.lost == s.lost && Pipe(s') == Pipe(s)
  {
    hide Ingest, Hop, Holds;
    assert s.inbox == [s.inbox[0]] + s.inbox[1..];
  }

  lemma BreakKeeps(s: System, s': System, kept: seq<nat>, gone: seq<nat>)
    requires FlowInv(s) && Pipe(s) == kept + gone && Pipe(s') == kept
    requires s'.lost == s.lost + gone && s'.server == s.server
    ensures FlowInv(s')
  {
    assert multiset(Pipe(s)) == multiset(kept) + multiset(gone);
    assert s'.lost == [] ==> gone == [] && s.lost == [] && kept + gone == kept;
    assert forall i :: 0 <= i < |kept| ==> kept[i] == Pipe(s)[i];
  }

  /** Moves that leave the client, and what it was handed, as they are. */
  lemma SameClient(s: System, s': System)
    requires ClientInv(s) && s' == s.(open := s'.open, channel := s'.channel, inbox := s'.inbox, lost := s'.lost)
    ensures ClientInv(s')
  {
    hide OnePusher, FirstOccurrences, HasEvent, Datas, Arrived, Below;
  }

  lemma SameFlow(s: System, s': System)
    requires FlowInv(s) && Pipe(s') == Pipe(s) && s'.lost == s.lost && s'.server.sent == s.server.sent
    ensures FlowInv(s')
  {}

  lemma ClientKeeps(s: System, a: Action)
    requires SystemInv(s) && (a.Push? || a.Wait?)
    ensures SystemInv(s.(client := Next(s.client, a)))
  {
    hide OneStream, FlowInv, OnePusher, ClientInv, Next, Pipe;
    var s' := s.(client := Next(s.client, a));
    ClientMoves(s, a);
    PipeOf(s, s');
    SameFlow(s, s');
  }

  lemma PipeOf(s: System, s': System)
    requires s'.offered == s.offered && s'.inbox == s.inbox && s'.channel == s.channel
    ensures Pipe(s') == Pipe(s)
  {}

  lemma ClientMoves(s: System, a: Action)
    requires ClientInv(s) && (a.Push? || a.Wait?)
    ensures ClientInv(s.(client := Next(s.client, a)))
  {
    hide FirstOccurrences, HasEvent, Arrived, Below, Inv, OrderInv, Range;
    var c := s.client;
    PusherIsSafe(c);
    NextOnePusher(c, a);
    NextKeeps(c, a);
    assert |Next(c, a).heap| == |c.heap| && Next(c, a).drops == c.drops && Next(c, a).cleaner == c.cleaner;
    assert Datas(Next(c, a).heap) == Datas(c.heap);
  }

  lemma PusherIsSafe(c: State)
    requires OnePusher(c)
    ensures Inv(c) && c.fetchers == [] && |c.pushers| == 1
  {}

  lemma RestartKeeps(s: System)
    requires SystemInv(s)
    ensures SystemInv(Step(s, Restart))
  {
    hide OneStream, FlowInv, ClientInv;
    var s', gone := Step(s, Restart), s.inbox + Flat(s.channel);
    FreshClient(s);
    assert s'.lost == s.lost + gone;
    assert Pipe(s) == s.offered + gone && Pipe(s') == s.offered;
    BreakKeeps(s, s', s.offered, gone);
  }

  lemma FreshPusher(clock: Time)
    ensures var c := Init(0, 1, clock); OnePusher(c) && c.heap == [] && c.drops == [] && c.cleaner.Resting?
  {
    InitInv(0, 1, clock);
  }

  lemma FreshClient(s: System)
    requires ClientInv(s)
    ensures ClientInv(Step(s, Restart))
  {
    hide HasEvent;
    var s' := Step(s, Restart);
    FreshPusher(s.client.clock);
    hide OnePusher, Init;
    assert s'.offered[s'.base..] == [] && Arrived(s'.server.heap, []) == [] && Datas(s'.client.heap) == [];
  }

  lemma OpenKeeps(s: System, open: bool)
    requires SystemInv(s)
    ensures SystemInv(s.(open := open))
  {
    hide OneStream, FlowInv, ClientInv, Pipe;
    var s' := s.(open := open);
    PipeOf(s, s');
    SameFlow(s, s');
    SameClient(s, s');
  }

  lemma BreakStreamKeeps(s: System)
    requires SystemInv(s)
    ensures SystemInv(Step(s, Break))
  {
    hide OneStream, FlowInv, ClientInv;
    var s' := Step(s, Break);
    SameClient(s, s');
    assert Pipe(s') == s.offered + s.inbox;
    BreakKeeps(s, s', s.offered + s.inbox, Flat(s.channel));
  }

  lemma ReceiveKeeps(s: System)
    requires SystemInv(s) && s.inbox == [] && s.channel != []
    ensures SystemInv(Step(s, Receive))
  {
    hide OneStream, FlowInv, ClientInv;
    var s' := Step(s, Receive);
    SameClient(s, s');
    assert Pipe(s') == Pipe(s);
    SameFlow(s, s');
  }

  lemma {:induction false} StepKeeps(s: System, m: Move)
    requires SystemInv(s)
    ensures SystemInv(Step(s, m))
  {
    hide SystemInv, ServerMove, StoreMove, Flat;
    match m
    case Server(a) => ServerKeeps(s, a);
    case Client(a) => if a.Push? || a.Wait? { ClientKeeps(s, a); }
    case StoreNext => if s.inbox != [] { StoreKeeps(s); }
    case Restart => RestartKeeps(s);
    case Open => OpenKeeps(s, true);
    case Finish => OpenKeeps(s, false);
    case Break => BreakStreamKeeps(s);
    case Receive => if s.inbox == [] && s.channel != [] { ReceiveKeeps(s); }
  }

  lemma {:induction false} PlayKeeps(serverClock: Time, clientClock: Time, moves: seq<Move>)
    ensures SystemInv(Play(Start(serverClock, clientClock), moves))
  {
    if moves == [] {
      InitOneStream(serverClock);
      InitInv(0, 1, clientClock);
      var s := Start(serverClock, clientClock);
      assert Arrived(s.server.heap, []) == [] && Datas(s.client.heap) == [];
    } else {
      PlayKeeps(serverClock, clientClock, moves[..|moves|-1]);
      StepKeeps(Play(Start(serverClock, clientClock), moves[..|moves|-1]), moves[|moves|-1]);
    }
  }

  // ---------- Theorems ----------

  /** The server's accept log as it looks after one hop. */
  ghost function AcceptLog(s: System): seq<EventData> {
    seq(|s.server.heap|, o requires 0 <= o < |s.server.heap| => Hop(s.server.heap[o].data))
  }

  /** The events the client has relayed, in the order of the calls. */
  ghost function Relayed(s: System): seq<EventData>
    requires Below(s.client.calls, |s.client.heap|)
  {
    seq(|s.client.calls|, i requires 0 <= i < |s.client.calls| => s.client.heap[s.client.calls[i]].data)
  }

  /** `s` is the state after some run, from whatever the clocks showed at the start. */
  ghost predicate Reachable(s: System) {
    exists serverClock, clientClock, moves :: Play(Start(serverClock, clientClock), moves) == s
  }

  lemma ReachableKeeps(s: System)
    requires Reachable(s)
    ensures SystemInv(s)
  {
    var serverClock, clientClock, moves :| Play(Start(serverClock, clientClock), moves) == s;
    PlayKeeps(serverClock, clientClock, moves);
  }

  /** End-to-end order. On every run in which nothing was lost and the client process was
      not restarted, with cleaning and re-acceptance at the server at any time: the client
      caches everything it took; what it has relayed is a prefix of that; and that is a
      prefix of the first occurrences in the server's accept log, headers and bodies
      included. */
  lemma {:induction false} EndToEndOrder(s: System)
    requires Reachable(s) && s.lost == [] && s.restarts == 0
    ensures s.client.list == Range(0, |s.client.heap|) && Below(s.client.calls, |s.client.heap|)
    ensures Relayed(s) <= Datas(s.client.heap) <= FirstOccurrences(AcceptLog(s))
  {
    hide SystemInv, FirstOccurrences, Hop;
    ReachableKeeps(s);
    ClientListsAll(s);
    OfferedIsPrefix(s);
    CachedIsFirst(s);
    FirstOfPrefix(AcceptLog(s), |s.offered|);
  }

  lemma FirstOfPrefix(es: seq<EventData>, k: nat)
    requires k <= |es|
    ensures FirstOccurrences(es[..k]) <= FirstOccurrences(es)
  {
    AddAllPrefix([], es, k);
  }

  lemma ClientListsAll(s: System)
    requires SystemInv(s)
    ensures s.client.list == Range(0, |s.client.heap|)
    ensures s.client.calls == Range(0, |s.client.calls|) && |s.client.calls| <= |s.client.heap|
  {
    WholeLog(s.client);
  }

  /** When such a run comes to rest, with everything sent and nothing under way, the client
      caches exactly the first occurrences in the accept log; and once it has nothing left
      to relay, these are what it has relayed, each once and in order. */
  lemma {:induction false} EverythingArrives(s: System)
    requires Reachable(s) && s.lost == [] && s.restarts == 0
    requires |s.server.sent| == |s.server.heap| && s.channel == [] && s.inbox == []
    ensures Datas(s.client.heap) == FirstOccurrences(AcceptLog(s))
    ensures Below(s.client.calls, |s.client.heap|)
    ensures |s.client.calls| == |s.client.list| ==> Relayed(s) == FirstOccurrences(AcceptLog(s))
  {
    hide SystemInv, FirstOccurrences, Hop;
    ReachableKeeps(s);
    ClientListsAll(s);
    OfferedIsPrefix(s);
    OfferedIsAll(s);
    CachedIsFirst(s);
    assert AcceptLog(s)[..|s.offered|] == AcceptLog(s);
  }

  lemma CachedIsFirst(s: System)
    requires SystemInv(s)
    ensures s.base <= |s.offered| && Below(s.offered, |s.server.heap|)
    ensures Datas(s.client.heap) == FirstOccurrences(Arrived(s.server.heap, s.offered[s.base..]))
  {
    hide OneStream, FlowInv, FirstOccurrences, HasEvent, OnePusher, Arrived, Datas;
  }

  lemma OfferedIsAll(s: System)
    requires SystemInv(s) && s.lost == [] && s.channel == [] && s.inbox == []
    ensures |s.offered| == |s.server.sent|
  {
    hide OneStream, ClientInv;
    assert Pipe(s) == s.offered + [] + [];
  }

  lemma {:induction false} OfferedIsPrefix(s: System)
    requires SystemInv(s) && s.lost == [] && s.restarts == 0
    ensures |s.offered| <= |s.server.heap| && s.base == 0
    ensures Arrived(s.server.heap, s.offered[s.base..]) == AcceptLog(s)[..|s.offered|]
  {
    hide OnePusher, FirstOccurrences, HasEvent, Hop;
    assert forall i :: 0 <= i < |s.offered| ==> s.offered[i] == Pipe(s)[i] == i;
  }

  /** With streams breaking and client processes ending at any time, what has been handed
      to client caches is in accept order, no event twice; and the present process caches
      the first occurrences of what was handed to it, no more and no less. */
  lemma {:induction false} OrderSurvivesLoss(s: System)
    requires Reachable(s)
    ensures Increasing(s.offered) && Below(s.offered, |s.server.heap|) && s.base <= |s.offered|
    ensures s.client.list == Range(0, |s.client.heap|)
    ensures Datas(s.client.heap) == FirstOccurrences(Arrived(s.server.heap, s.offered[s.base..]))
  {
    ReachableKeeps(s);
    ClientListsAll(s);
    assert forall i :: 0 <= i < |s.offered| ==> s.offered[i] == Pipe(s)[i];
  }

  /** Loss is confined. On every run, each accepted event either waits in the server's
      cache, unrelayed and never sent, or was sent and is in exactly one place: handed to
      a client cache, being stored, in the stream, or in flight when a stream or a client
      process ended. Every ID handed to a client cache is one that a client cache took; if
      it was handed to the present process, the present cache holds it. */
  lemma {:induction false} LossIsConfined(s: System, o: nat)
    requires Reachable(s) && o < |s.server.heap|
    ensures if o in s.server.sent
            then multiset(s.offered)[o] + multiset(s.inbox)[o] + multiset(Flat(s.channel))[o] + multiset(s.lost)[o] == 1
            else o in s.server.list && !Flag(s.server.heap, o)
    ensures o in s.offered ==> HasEvent(s.stored, IdOf(s.server.heap, o))
    ensures s.base <= |s.offered| && (o in s.offered[s.base..] ==>
              HasEvent(Datas(s.client.heap), IdOf(s.server.heap, o)))
  {
    ReachableKeeps(s);
    OfferedIsHeld(s, o);
    hide SystemInv, Reachable;
    if o in s.server.sent {
      SentIsSomewhere(s, o);
    } else {
      UnsentIsListed(s, o);
    }
    OfferedIsStored(s, o);
  }

  lemma SentIsSomewhere(s: System, o: nat)
    requires SystemInv(s) && o in s.server.sent
    ensures multiset(s.offered)[o] + multiset(s.inbox)[o] + multiset(Flat(s.channel))[o] + multiset(s.lost)[o] == 1
  {
    SentOnce(s.server.sent, o);
    hide OneStream, ClientInv, Range;
    assert multiset(Pipe(s)) == multiset(s.offered) + multiset(s.inbox) + multiset(Flat(s.channel));
  }

  lemma UnsentIsListed(s: System, o: nat)
    requires SystemInv(s) && o !in s.server.sent && o < |s.server.heap|
    ensures o in s.server.list && !Flag(s.server.heap, o)
  {
    InRange(s.server.sent, o);
    UnrelayedListed(s.server);
  }

  lemma InRange(sent: seq<nat>, o: nat)
    requires sent == Range(0, |sent|)
    ensures o in sent <==> o < |sent|
  {
    if o < |sent| { assert sent[o] == o; }
  }

  lemma OfferedIsStored(s: System, o: nat)
    requires SystemInv(s)
    ensures o in s.offered ==> HasEvent(s.stored, IdOf(s.server.heap, o))
  {
    forall i | 0 <= i < |s.offered| && s.offered[i] == o ensures HasEvent(s.stored, IdOf(s.server.heap, o)) {
      assert HasEvent(s.stored, IdOf(s.server.heap, s.offered[i]));
    }
  }

  lemma SameIdAfterHop(s: System, o: nat)
    requires SystemInv(s) && o < |s.server.heap|
    ensures Hop(s.server.heap[o].data).id == IdOf(s.server.heap, o)
  {
    hide FlowInv, ClientInv, Hop, FlagsUpTo, TimesUpTo, BatchInv;
    HopKeepsCoherence(s.server.heap[o].data);
  }

  lemma OfferedIsHeld(s: System, o: nat)
    requires SystemInv(s)
    ensures s.base <= |s.offered| && (o in s.offered[s.base..] ==>
              HasEvent(Datas(s.client.heap), IdOf(s.server.heap, o)))
  {
    hide SystemInv, FirstOccurrences, Hop, HasEvent, Coherent;
    CachedIsFirst(s);
    var handed := s.offered[s.base..];
    forall i | 0 <= i < |handed| && handed[i] == o ensures HasEvent(Datas(s.client.heap), IdOf(s.server.heap, o)) {
      SameIdAfterHop(s, o);
      EachIdHeld(Arrived(s.server.heap, handed), i);
    }
  }

  lemma SentOnce(sent: seq<nat>, o: nat)
    requires sent == Range(0, |sent|) && o in sent
    ensures multiset(sent)[o] == 1
  {
    assert sent == sent[..o] + [sent[o]] + sent[o+1..];
    assert o !in multiset(sent[..o]) && o !in multiset(sent[o+1..]);
  }

  // ---------- Relay calls over all client processes ----------

  ghost predicate OriginInv(s: System) {
    && s.base <= |s.offered|
    && |s.origins| == |s.client.heap| && Increasing(s.origins) && Increasing(s.past)
    && (forall c :: 0 <= c < |s.origins| ==> s.origins[c] in s.offered[s.base..] && CameFrom(s, c))
    && (forall i :: 0 <= i < |s.past| ==> s.past[i] in s.offered[..s.base])
  }

  ghost predicate CameFrom(s: System, c: nat)
    requires c < |s.origins|
  {
    && c < |s.client.heap| && s.origins[c] < |s.server.heap|
    && s.client.heap[c].data == Hop(s.server.heap[s.origins[c]].data)
  }

  lemma OfferedIncreases(s: System)
    requires SystemInv(s)
    ensures Increasing(s.offered) && Below(s.offered, |s.server.heap|)
    ensures s.inbox != [] ==> forall i :: 0 <= i < |s.offered| ==> s.offered[i] < s.inbox[0]
  {
    hide OneStream, OnePusher, FirstOccurrences, HasEvent, Hop;
    assert forall i :: 0 <= i < |s.offered| ==> s.offered[i] == Pipe(s)[i];
    assert s.inbox != [] ==> Pipe(s)[|s.offered|] == s.inbox[0];
  }

  lemma InFront(xs: seq<nat>, base: nat, x: nat) returns (i: nat)
    requires base <= |xs| && x in xs[..base]
    ensures i < base && xs[i] == x
  {
    i :| 0 <= i < |xs[..base]| && xs[..base][i] == x;
  }

  lemma InTail(xs: seq<nat>, base: nat, x: nat) returns (i: nat)
    requires base <= |xs| && x in xs[base..]
    ensures base <= i < |xs| && xs[i] == x
  {
    var k :| 0 <= k < |xs[base..]| && xs[base..][k] == x;
    i := base + k;
  }

  /** The relayed accepts, those of earlier processes first, never go back. */
  lemma RelaysIncrease(s: System)
    requires SystemInv(s) && OriginInv(s)
    ensures Increasing(s.past + Relays(s)) && forall i :: 0 <= i < |Relays(s)| ==> Relays(s)[i] in s.offered[s.base..]
  {
    hide SystemInv;
    ClientListsAll(s);
    OfferedIncreases(s);
    var relays := Relays(s);
    forall j | 0 <= j < |relays| ensures relays[j] == s.origins[j] && relays[j] in s.offered[s.base..] {}
    forall i, j | 0 <= i < |s.past| && 0 <= j < |relays| ensures s.past[i] < relays[j] {
      assert relays[j] in s.offered[s.base..];
      var a := InFront(s.offered, s.base, s.past[i]);
      var b := InTail(s.offered, s.base, relays[j]);
      assert s.offered[a] < s.offered[b];
    }
  }

  lemma RestartOrigins(s: System)
    requires SystemInv(s) && OriginInv(s)
    ensures OriginInv(Step(s, Restart))
  {
    hide SystemInv, Relays, CameFrom, Increasing;
    RelaysIncrease(s);
    var s', relays := Step(s, Restart), Relays(s);
    NoneIncrease();
    assert s'.offered[..s'.base] == s.offered;
    forall i | 0 <= i < |s'.past| ensures s'.past[i] in s.offered {
      if i < |s.past| {
        assert s.past[i] in s.offered[..s.base];
      } else {
        assert relays[i - |s.past|] in s.offered[s.base..];
      }
    }
  }

  lemma NoneIncrease()
    ensures Increasing([])
  {}

  lemma StoreOrigins(s: System)
    requires SystemInv(s) && OriginInv(s) && s.inbox != [] && s.inbox[0] < |s.server.heap|
    ensures OriginInv(StoreMove(s))
  {
    hide SystemInv, Hop, Holds, Increasing, Below, Arrived, Datas;
    OfferedIncreases(s);
    var x, s' := s.inbox[0], StoreMove(s);
    assert s'.offered[s.base..] == s.offered[s.base..] + [x] && s'.offered[..s.base] == s.offered[..s.base];
    OriginsBelow(s, x);
    IncreasingSnoc(s.origins, x);
    forall c | 0 <= c < |s'.origins| ensures s'.origins[c] in s'.offered[s.base..] && CameFrom(s', c) {
      if c < |s.origins| {
        assert CameFrom(s, c) && s.origins[c] in s.offered[s.base..];
      } else {
        assert s'.offered[s.base..][|s.offered| - s.base] == x;
      }
    }
  }

  lemma IncreasingSnoc(xs: seq<nat>, x: nat)
    requires Increasing(xs) && Below(xs, x)
    ensures Increasing(xs + [x])
  {}

  lemma OriginsBelow(s: System, x: nat)
    requires OriginInv(s) && forall i :: 0 <= i < |s.offered| ==> s.offered[i] < x
    ensures Below(s.origins, x)
  {
    hide CameFrom, Increasing;
    forall c | 0 <= c < |s.origins| ensures s.origins[c] < x {
      assert s.origins[c] in s.offered[s.base..];
      var b := InTail(s.offered, s.base, s.origins[c]);
      assert s.offered[b] < x;
    }
  }

  /** Every other move leaves the histories alone, and data where it is. */
  lemma SameOrigins(s: System, s': System)
    requires OriginInv(s) && Grows(s.server.heap, s'.server.heap) && Grows(s.client.heap, s'.client.heap)
    requires |s'.client.heap| == |s.client.heap|
    requires s'.offered == s.offered && s'.base == s.base && s'.origins == s.origins && s'.past == s.past
    ensures OriginInv(s')
  {
    hide Hop, Increasing;
    forall c | 0 <= c < |s'.origins| ensures s'.origins[c] in s'.offered[s'.base..] && CameFrom(s', c) {
      assert CameFrom(s, c);
    }
  }

  lemma GrowsSelf(h: seq<Obj>)
    ensures Grows(h, h)
  {}

  lemma ServerGrows(s: System, a: Action)
    requires SystemInv(s)
    ensures Grows(s.server.heap, ServerMove(s, a).server.heap)
  {
    hide OneStream, FlowInv, ClientInv, FetchStep, Next, Inv, Grows;
    StreamIsSafe(s.server);
    if a.Fetch? && a.k == 0 {
      FetchKeeps(s.server, 0, true);
      FetchKeeps(s.server, 0, false);
      GrowsSelf(s.server.heap);
    } else {
      NextKeeps(s.server, a);
    }
  }

  lemma ClientGrows(s: System, a: Action)
    requires SystemInv(s) && (a.Push? || a.Wait?)
    ensures Grows(s.client.heap, Next(s.client, a).heap) && |Next(s.client, a).heap| == |s.client.heap|
  {
    hide OneStream, FlowInv, OnePusher, FirstOccurrences, HasEvent, Inv, Grows;
    PusherIsSafe(s.client);
    NextKeeps(s.client, a);
  }

  lemma StepOrigins(s: System, m: Move)
    requires SystemInv(s) && OriginInv(s)
    ensures OriginInv(Step(s, m))
  {
    hide SystemInv, OriginInv, ServerMove, StoreMove, Next, Grows, Relays;
    GrowsSelf(s.server.heap);
    GrowsSelf(s.client.heap);
    match m
    case Server(a) =>
      ServerGrows(s, a);
      ServerSpares(s, a);
      SameOrigins(s, Step(s, m));
    case Client(a) =>
      if a.Push? || a.Wait? {
        ClientGrows(s, a);
        SameOrigins(s, Step(s, m));
      }
    case StoreNext => if s.inbox != [] && s.inbox[0] < |s.server.heap| { StoreOrigins(s); }
    case Restart => RestartOrigins(s);
    case Open => SameOrigins(s, Step(s, m));
    case Finish => SameOrigins(s, Step(s, m));
    case Break => SameOrigins(s, Step(s, m));
    case Receive => SameOrigins(s, Step(s, m));
  }

  lemma ServerSpares(s: System, a: Action)
    ensures var s' := ServerMove(s, a);
            s' == s.(server := s'.server, open := s'.open, channel := s'.channel)
  {
    hide FetchStep, Next;
  }

  lemma {:induction false} PlayOrigins(serverClock: Time, clientClock: Time, moves: seq<Move>)
    ensures OriginInv(Play(Start(serverClock, clientClock), moves))
  {
    if moves == [] {
      NoneIncrease();
    } else {
      hide Step, Start, OriginInv, SystemInv;
      PlayOrigins(serverClock, clientClock, moves[..|moves|-1]);
      PlayKeeps(serverClock, clientClock, moves[..|moves|-1]);
      StepOrigins(Play(Start(serverClock, clientClock), moves[..|moves|-1]), moves[|moves|-1]);
    }
  }

  /** At most one relay per accepted event, over all client processes: with breaks and
      restarts at any time, the accepts behind all the relay calls ever made strictly
      increase, and each call of the present process relays what that accept stored, after
      one hop. */
  lemma {:induction false} EachAcceptRelayedOnce(s: System)
    requires Reachable(s)
    ensures Increasing(s.past + Relays(s)) && Below(s.past + Relays(s), |s.server.heap|)
    ensures Below(s.client.calls, |s.client.heap|) && |Relays(s)| == |Relayed(s)|
    ensures forall i :: 0 <= i < |Relays(s)| ==>
              Relays(s)[i] < |s.server.heap| && Relayed(s)[i] == Hop(s.server.heap[Relays(s)[i]].data)
  {
    hide SystemInv, Hop, OriginInv;
    var serverClock, clientClock, moves :| Play(Start(serverClock, clientClock), moves) == s;
    PlayOrigins(serverClock, clientClock, moves);
    ReachableKeeps(s);
    CallsHaveOrigins(s);
  }

  lemma CallsHaveOrigins(s: System)
    requires SystemInv(s) && OriginInv(s)
    ensures Increasing(s.past + Relays(s)) && Below(s.past + Relays(s), |s.server.heap|)
    ensures Below(s.client.calls, |s.client.heap|) && |Relays(s)| == |Relayed(s)|
    ensures forall i :: 0 <= i < |Relays(s)| ==>
              Relays(s)[i] < |s.server.heap| && Relayed(s)[i] == Hop(s.server.heap[Relays(s)[i]].data)
  {
    hide SystemInv, Hop, Increasing;
    ClientListsAll(s);
    OfferedIncreases(s);
    RelaysIncrease(s);
    forall i | 0 <= i < |s.past| ensures s.past[i] < |s.server.heap| { assert s.past[i] in s.offered[..s.base]; }
    forall i | 0 <= i < |Relays(s)|
      ensures Relays(s)[i] < |s.server.heap| && Relayed(s)[i] == Hop(s.server.heap[Relays(s)[i]].data)
    {
      assert s.client.calls[i] == i && CameFrom(s, i);
    }
  }
}

/** One response, from the server's cache over the wire into the client's. */
module Transfer {
  import opened Events
  import opened Codec
  import opened CacheSpec
  import opened EventStore
  import opened Repositories
  import opened Ticks
  import opened StreamWindow

  ghost function Hopped(ps: seq<CachedEvent>): seq<EventData> {
    seq(|ps|, i requires 0 <= i < |ps| => Hop(ps[i].data))
  }

  /** The messages as the other end of the stream gets them. */
  method Transmit(batch: seq<Message>) returns (received: seq<Message>)
    ensures |received| == |batch|
    ensures forall i :: 0 <= i < |batch| ==> received[i] == Wire(batch[i]) && NoNil(received[i])
  {
    hide Wire;
    received := [];
    for i := 0 to |batch|
      invariant |received| == i
      invariant forall k :: 0 <= k < i ==> received[k] == Wire(batch[k]) && NoNil(received[k])
    {
      received := received + [Wire(batch[i])];
    }
  }

  /** The client's event for a server's: same body, same significant headers, and the ID
      these carry. */
  ghost predicate Delivers(d: EventData, e: EventData) {
    e.body == d.body && e.headers == NonEmpty(d.headers) && e.id == DeliveryId(d.headers)
  }

  /** What was pending is held at the other end, and only that is new there. */
  lemma {:induction false} TransferMeans(pending: seq<CachedEvent>, batch: seq<Message>, received: seq<Message>,
                                         before: seq<CachedEvent>, after: seq<CachedEvent>)
    requires batch == Encoded(pending) && |received| == |batch|
    requires forall i :: 0 <= i < |batch| ==> received[i] == Wire(batch[i]) && NoNil(received[i])
    requires forall i :: 0 <= i < |received| ==> HoldsId(after, DeliveryId(Received(received[i])))
    requires forall e :: e in after ==>
               e in before || exists m :: m in received && NoNil(m) && e.data == Decode(m) && e.data.body == m.body
    ensures Decoded(received) == Hopped(pending)
    ensures forall i :: 0 <= i < |pending| ==> HoldsId(after, DeliveryId(pending[i].data.headers))
    ensures forall e :: e in after && e !in before ==>
              exists i :: 0 <= i < |pending| && Delivers(pending[i].data, e.data)
  {
    hide HoldsId, NonEmpty, DeliveryId, Encode, Wire;
    forall i | 0 <= i < |pending|
      ensures Decode(received[i]) == Hop(pending[i].data) && Delivers(pending[i].data, Decode(received[i]))
    {
      HopIsLossless(pending[i].data);
    }
    forall e | e in after && e !in before
      ensures exists i :: 0 <= i < |pending| && Delivers(pending[i].data, e.data)
    {
      var m :| m in received && NoNil(m) && e.data == Decode(m) && e.data.body == m.body;
      var i :| 0 <= i < |received| && received[i] == m;
      assert Delivers(pending[i].data, e.data);
    }
  }

  /** The steps of `DeliverTick`. `pending` is what the server had to send. */
  method Deliver(server: InMemoryStore, watcher: RepositoryWatcher, clock: Clock, client: InMemoryStore, r: string,
                 ghost pending: seq<CachedEvent>)
    returns (res: Outcome<seq<Message>>)
    requires server.Valid() && client.Valid() && server != client && server.arrays !! client.arrays
    requires pending == Pending(server.Cached(r))
    modifies server`handed, server`arrays, server`owner, clock, server.Cached(r), client, client.arrays
    ensures server.Valid() && client.Valid()
    ensures res.Ok? <==> r in watcher.repositories
    ensures res.Error? ==> client.Cached(r) == old(client.Cached(r))
    ensures res.Ok? ==> forall e :: e in server.Cached(r) ==> e.isRelayed
    ensures old(client.Cached(r)) <= client.Cached(r)
    ensures res.Ok? ==> Datas(client.Cached(r)) == AddAll(Datas(old(client.Cached(r))), Hopped(pending))
    ensures res.Ok? ==> forall i :: 0 <= i < |pending| ==>
              HoldsId(client.Cached(r), DeliveryId(pending[i].data.headers))
    ensures forall e :: e in client.Cached(r) && e !in old(client.Cached(r)) ==>
              exists i :: 0 <= i < |pending| && Delivers(pending[i].data, e.data)
    ensures SameElsewhere(old(client.contents), client.contents, r)
  {
    hide InMemoryStore.Valid, Pending, Encoded, Datas, AddAll, HoldsId, NonEmpty, DeliveryId, Decode, Wire, Received,
      SameElsewhere, Cells, AllRelayed, Hopped, Delivers;
    ghost var before := client.Cached(r);
    SameElsewhereTransitive(client.contents, client.contents, client.contents, r);
    res := FetchTick(server, watcher, r, clock, true);
    if res.Ok? {
      var received := Transmit(res.value);
      StoreBatch(client, r, received);
      TransferMeans(pending, res.value, received, before, client.Cached(r));
    }
  }

  /** A fetch tick whose send succeeds, the wire, and the client's loop over the response.
      Everything that was pending at the server is relayed there and held at the client;
      the client keeps what it held, and every new event is a pending one after one hop. */
  method DeliverTick(server: InMemoryStore, watcher: RepositoryWatcher, clock: Clock, client: InMemoryStore, r: string)
    returns (res: Outcome<seq<Message>>)
    requires server.Valid() && client.Valid() && server != client && server.arrays !! client.arrays
    modifies server`handed, server`arrays, server`owner, clock, server.Cached(r), client, client.arrays
    ensures server.Valid() && client.Valid()
    ensures res.Ok? <==> r in watcher.repositories
    ensures res.Error? ==> client.Cached(r) == old(client.Cached(r))
    ensures res.Ok? ==> forall e :: e in server.Cached(r) ==> e.isRelayed
    ensures old(client.Cached(r)) <= client.Cached(r)
    ensures res.Ok? ==>
              Datas(client.Cached(r)) == AddAll(Datas(old(client.Cached(r))), Hopped(old(Pending(server.Cached(r)))))
    ensures res.Ok? ==> forall i :: 0 <= i < |server.Cached(r)| && !old(server.Cached(r)[i].isRelayed) ==>
              HoldsId(client.Cached(r), DeliveryId(server.Cached(r)[i].data.headers))
    ensures forall e :: e in client.Cached(r) && e !in old(client.Cached(r)) ==>
              exists i :: 0 <= i < |server.Cached(r)| && !old(server.Cached(r)[i].isRelayed)
                && e.data.body == server.Cached(r)[i].data.body
                && e.data.headers == NonEmpty(server.Cached(r)[i].data.headers)
                && e.data.id == DeliveryId(server.Cached(r)[i].data.headers)
    ensures SameElsewhere(old(client.contents), client.contents, r)
  {
    hide InMemoryStore.Valid, Pending, Datas, AddAll, HoldsId, NonEmpty, DeliveryId, SameElsewhere, Hopped;
    ghost var pending, list := Pending(server.Cached(r)), server.Cached(r);
    ghost var pos := PendingIsFilter(list);
    res := Deliver(server, watcher, clock, client, r, pending);
    forall e | e in client.Cached(r) && e !in old(client.Cached(r))
      ensures exists i :: 0 <= i < |list| && !old(list[i].isRelayed) && Delivers(list[i].data, e.data)
    {
      var k :| 0 <= k < |pending| && Delivers(pending[k].data, e.data);
      assert pending[k] == list[pos[k]];
    }
  }
}

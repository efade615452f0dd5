/** The two timed loops at the ends of a stream: they end, they tick at most as often as
    their window allows, and each tick does what it should. */
module StreamWindow {
  import opened Events
  import opened Codec
  import opened CacheSpec
  import opened EventStore
  import opened Repositories
  import opened Ticks

  /** ceil(d / i). */
  function CeilDiv(d: nat, i: nat): nat
    requires i > 0
  {
    (d + i - 1) / i
  }

  /** How long `n` ticks take at least. */
  function Span(n: nat, i: nat): nat {
    n * i
  }

  /** The last of `n` ticks, `i` apart, can begin before `d` has gone by. */
  predicate Fits(n: nat, d: nat, i: nat) {
    n == 0 || Span(n - 1, i) < d
  }

  lemma FitsNone(d: nat, i: nat)
    ensures Fits(0, d, i)
  {}

  lemma FitsNext(n: nat, start: Time, now: Time, d: nat, i: nat)
    requires start + Span(n, i) <= now < start + d
    ensures Fits(n + 1, d, i)
  {}

  /** That is so exactly when `n` is at most ceil(d / i). */
  lemma {:induction false} TicksFit(n: nat, d: nat, i: nat)
    requires i > 0
    ensures Fits(n, d, i) <==> n <= CeilDiv(d, i)
  {
    var q, r := (d + i - 1) / i, (d + i - 1) % i;
    assert d + i - 1 == q * i + r;
    if n > q {
      MulMonotone(q, n - 1, i);
    } else if n > 0 {
      MulMonotone(n - 1, q - 1, i);
      assert (q - 1) * i == q * i - i;
    }
  }

  lemma MulMonotone(a: int, b: int, i: nat)
    requires a <= b
    ensures a * i <= b * i
  {}

  datatype Reply = Response(batch: seq<Message>) | EndOfStream | Failure

  ghost function Messages(replies: seq<Reply>): seq<Message> {
    if replies == [] then []
    else Messages(replies[..|replies|-1]) +
         (if replies[|replies|-1].Response? then replies[|replies|-1].batch else [])
  }

  ghost predicate NoNils(replies: seq<Reply>) {
    forall i, j :: 0 <= i < |replies| && replies[i].Response? && 0 <= j < |replies[i].batch| ==>
        NoNil(replies[i].batch[j])
  }

  lemma {:induction false} MessagesNoNil(replies: seq<Reply>)
    requires NoNils(replies)
    ensures forall i :: 0 <= i < |Messages(replies)| ==> NoNil(Messages(replies)[i])
  {
    if replies == [] {
    } else {
      MessagesNoNil(replies[..|replies|-1]);
    }
  }

  /** The cache went from `before` to `after` by taking in the first `n` replies. */
  ghost predicate TookIn(before: seq<EventData>, after: seq<EventData>, replies: seq<Reply>, n: nat)
    requires NoNils(replies) && n <= |replies|
  {
    MessagesNoNil(replies[..n]);
    after == AddAll(before, Decoded(Messages(replies[..n])))
  }

  lemma TookNone(before: seq<EventData>, replies: seq<Reply>)
    requires NoNils(replies)
    ensures TookIn(before, before, replies, 0)
  {
    assert replies[..0] == [];
  }

  lemma TookNext(before: seq<EventData>, mid: seq<EventData>, after: seq<EventData>, replies: seq<Reply>, n: nat)
    requires NoNils(replies) && n < |replies| && TookIn(before, mid, replies, n)
    requires after == if replies[n].Response? then AddAll(mid, Decoded(replies[n].batch)) else mid
    ensures TookIn(before, after, replies, n + 1)
  {
    assert replies[..n+1][..n] == replies[..n];
    MessagesNoNil(replies[..n]);
    MessagesNoNil(replies[..n+1]);
    if replies[n].Response? {
      var front, batch := Messages(replies[..n]), replies[n].batch;
      assert Decoded(front + batch) == Decoded(front) + Decoded(batch);
      AddAllAppend(before, Decoded(front), Decoded(batch));
    } else {
      assert Messages(replies[..n]) + [] == Messages(replies[..n]);
    }
  }

  /** `m` is one of the messages of the first `n` replies. */
  lemma {:induction false} MessagesAre(replies: seq<Reply>, n: nat)
    requires n <= |replies|
    ensures forall k, i :: 0 <= k < n && replies[k].Response? && 0 <= i < |replies[k].batch| ==>
              replies[k].batch[i] in Messages(replies[..n])
    ensures forall m :: m in Messages(replies[..n]) ==>
              exists k :: 0 <= k < n && replies[k].Response? && m in replies[k].batch
  {
    if n == 0 {
    } else {
      MessagesAre(replies, n - 1);
      assert replies[..n][..n-1] == replies[..n-1];
    }
  }

  /** What taking in the first `n` replies means for the list: nothing was given up, every
      delivery received is held, and what is new was received, body and all. */
  lemma {:induction false} TookMeans(ps: seq<CachedEvent>, after: seq<CachedEvent>, replies: seq<Reply>, n: nat)
    requires NoNils(replies) && n <= |replies| && TookIn(Datas(ps), Datas(after), replies, n)
    ensures |ps| <= |after| && forall p :: 0 <= p < |ps| ==> after[p].data == ps[p].data
    ensures forall k, i :: 0 <= k < n && replies[k].Response? && 0 <= i < |replies[k].batch| ==>
              HoldsId(after, DeliveryId(Received(replies[k].batch[i])))
    ensures forall e :: e in after ==>
              (exists p :: 0 <= p < |ps| && ps[p].data == e.data) ||
              exists k, m :: 0 <= k < n && replies[k].Response? && m in replies[k].batch && NoNil(m)
                && e.data == Decode(m) && e.data.body == m.body
  {
    hide AddAll, Messages, NonEmpty, DeliveryId;
    MessagesNoNil(replies[..n]);
    MessagesAre(replies, n);
    var ms := Messages(replies[..n]);
    AddAllMembers(Datas(ps), Decoded(ms));
    assert |Datas(ps)| == |ps| && |Datas(after)| == |after|;
    forall p | 0 <= p < |ps| ensures after[p].data == ps[p].data {
      assert Datas(after)[p] == Datas(ps)[p];
    }
    forall k, i | 0 <= k < n && replies[k].Response? && 0 <= i < |replies[k].batch|
      ensures HoldsId(after, DeliveryId(Received(replies[k].batch[i])))
    {
      var j :| 0 <= j < |ms| && ms[j] == replies[k].batch[i];
      assert HasEvent(Datas(after), Decoded(ms)[j].id);
      var p :| 0 <= p < |after| && Datas(after)[p].id == Decoded(ms)[j].id;
      assert after[p].data.id == DeliveryId(Received(ms[j]));
    }
    forall e | e in after
      ensures (exists p :: 0 <= p < |ps| && ps[p].data == e.data) ||
              exists k, m :: 0 <= k < n && replies[k].Response? && m in replies[k].batch && NoNil(m)
                && e.data == Decode(m) && e.data.body == m.body
    {
      var q :| 0 <= q < |after| && after[q] == e;
      assert Datas(after)[q] == e.data;
      if e.data in Datas(ps) {
        var p :| 0 <= p < |ps| && Datas(ps)[p] == e.data;
        assert ps[p].data == e.data;
      } else {
        var j :| 0 <= j < |ms| && Decoded(ms)[j] == e.data;
        assert ms[j] in ms;
        var k :| 0 <= k < n && replies[k].Response? && ms[j] in replies[k].batch;
        assert NoNil(ms[j]) && e.data == Decode(ms[j]);
      }
    }
  }

  /** One turn of the receive loop, with the clock reading that decides on the next one.
      `more` is false when the stream is over. */
  method ReceiveTurn(store: InMemoryStore, r: string, replies: seq<Reply>, n: nat, clock: Clock, interval: nat,
                     ghost before: seq<EventData>, ghost initial: map<string, seq<CachedEvent>>)
    returns (more: bool, now: Time)
    requires store.Valid() && NoNils(replies) && n < |replies| && TookIn(before, Datas(store.Cached(r)), replies, n)
    requires SameElsewhere(initial, store.contents, r)
    modifies store, store.arrays, clock
    ensures store.Valid() && fresh(store.arrays - old(store.arrays))
    ensures now == clock.now >= old(clock.now) + interval
    ensures TookIn(before, Datas(store.Cached(r)), replies, n + 1)
    ensures SameElsewhere(initial, store.contents, r)
    ensures more <==> replies[n].Response?
  {
    hide InMemoryStore.Valid, Datas, NoNil, TookIn, SameElsewhere;
    clock.Wait(interval);
    ghost var mid, earlier := Datas(store.Cached(r)), store.contents;
    SameElsewhereTransitive(earlier, earlier, earlier, r);
    more := replies[n].Response?;
    if more {
      StoreBatch(store, r, replies[n].batch);
    }
    TookNext(before, mid, Datas(store.Cached(r)), replies, n);
    SameElsewhereTransitive(initial, earlier, store.contents, r);
    now := clock.Now();
  }

  /** Why the receive loop was left. */
  datatype Exit = Deadline | StreamEnded | ContextDone | ReceiveFailed

  /** `handleWebhookEventStream` from its receive loop on. The replies are what `Recv`
      returns, in order; when they run out one of the contexts is done. `contextError` says
      whether the stream's context has an error when the loop was left for another reason.
      `failed` is whether the caller gets an error. */
  method ReceiveEvents(store: InMemoryStore, r: string, replies: seq<Reply>, contextError: bool, clock: Clock,
                       interval: nat, window: nat)
    returns (exit: Exit, failed: bool, received: nat)
    requires store.Valid() && interval > 0 && NoNils(replies)
    modifies store, store.arrays, clock
    ensures store.Valid() && received <= |replies|
    ensures received <= CeilDiv(window, interval)
    ensures TookIn(Datas(old(store.Cached(r))), Datas(store.Cached(r)), replies, received)
    ensures |old(store.Cached(r))| <= |store.Cached(r)|
    ensures forall p :: 0 <= p < |old(store.Cached(r))| ==> store.Cached(r)[p].data == old(store.Cached(r))[p].data
    ensures forall k, i :: 0 <= k < received && replies[k].Response? && 0 <= i < |replies[k].batch| ==>
              HoldsId(store.Cached(r), DeliveryId(Received(replies[k].batch[i])))
    ensures forall e :: e in store.Cached(r) ==>
              (exists p :: 0 <= p < |old(store.Cached(r))| && old(store.Cached(r))[p].data == e.data) ||
              exists k, m :: 0 <= k < received && replies[k].Response? && m in replies[k].batch && NoNil(m)
                && e.data == Decode(m) && e.data.body == m.body
    ensures SameElsewhere(old(store.contents), store.contents, r)
    ensures exit.ReceiveFailed? <==> received > 0 && replies[received - 1].Failure?
    ensures exit.StreamEnded? <==> received > 0 && replies[received - 1].EndOfStream?
    ensures exit.ContextDone? ==> received == |replies|
    ensures exit.Deadline? ==> clock.now >= old(clock.now) + window
    ensures failed <==> exit.ReceiveFailed? || exit.ContextDone? || contextError
  {
    hide InMemoryStore.Valid, InMemoryStore.Cached, SameElsewhere, Datas, NoNils, TookIn, CeilDiv, Span, Fits;
    exit, received := Deadline, 0;
    ghost var list, before, initial := store.Cached(r), Datas(store.Cached(r)), store.contents;
    SameElsewhereTransitive(initial, initial, initial, r);
    SpanNext(0, interval);
    FitsNone(window, interval);
    TookNone(before, replies);
    var start := clock.Now();
    var finish := start + window;
    var now := clock.Now();
    while now < finish
      invariant store.Valid() && fresh(store.arrays - old(store.arrays)) && received <= |replies|
      invariant now == clock.now && start + Span(received, interval) <= now
      invariant Fits(received, window, interval)
      invariant TookIn(before, Datas(store.Cached(r)), replies, received)
      invariant SameElsewhere(initial, store.contents, r)
      invariant exit.Deadline? && (received > 0 ==> replies[received - 1].Response?)
      decreases finish - now
    {
      if received == |replies| {
        exit := ContextDone;
        break;
      }
      SpanNext(received, interval);
      FitsNext(received, start, now, window, interval);
      var more: bool;
      more, now := ReceiveTurn(store, r, replies, received, clock, interval, before, initial);
      received := received + 1;
      if !more {
        exit := if replies[received - 1].EndOfStream? then StreamEnded else ReceiveFailed;
        break;
      }
    }
    TicksFit(received, window, interval);
    TookMeans(list, store.Cached(r), replies, received);
    failed := exit.ReceiveFailed? || exit.ContextDone? || contextError;
  }

  lemma SpanNext(n: nat, i: nat)
    ensures Span(n + 1, i) == Span(n, i) + i && Span(0, i) == 0
  {}

  // ---------- Server ----------

  ghost predicate AllRelayed(cs: seq<Cell<CachedEvent>>) {
    forall i :: 0 <= i < |cs| ==> cs[i].relayed
  }

  lemma {:induction false} PendingAre(ps: seq<CachedEvent>, e: CachedEvent)
    ensures e in Pending(ps) <==> e in ps && !e.isRelayed
  {
    if ps == [] {
    } else {
      PendingAre(ps[..|ps|-1], e);
      assert ps == ps[..|ps|-1] + [ps[|ps|-1]];
    }
  }

  /** Once everything is relayed the next batch is empty. */
  lemma NothingPending(ps: seq<CachedEvent>)
    ensures AllRelayed(Cells(ps)) ==> Encoded(Pending(ps)) == []
  {
    if Pending(ps) != [] {
      PendingAre(ps, Pending(ps)[0]);
      var k :| 0 <= k < |ps| && ps[k] == Pending(ps)[0];
      assert !Cells(ps)[k].relayed;
    }
  }

  /** The batch names an event exactly when that event is pending, although it names it by
      ID: no other cached event has its ID. */
  lemma BatchNamesPending(ps: seq<CachedEvent>, e: CachedEvent)
    requires e in ps && DistinctIds(ps)
    ensures InBatch(Encoded(Pending(ps)), e.data.id) <==> !e.isRelayed
  {
    PendingAre(ps, e);
    var pending := Pending(ps);
    if !e.isRelayed {
      var i :| 0 <= i < |pending| && pending[i] == e;
      assert Encoded(pending)[i].eventId == e.data.id;
    } else if InBatch(Encoded(pending), e.data.id) {
      var i :| 0 <= i < |pending| && Encoded(pending)[i].eventId == e.data.id;
      PendingAre(ps, pending[i]);
    }
  }

  /** One tick of `FetchWebhookEvents`: take the pending events, send them, and only if the
      send succeeds mark them. `sendOk` is what `Send` returns. */
  method FetchTick(store: InMemoryStore, watcher: RepositoryWatcher, r: string, clock: Clock, sendOk: bool)
    returns (res: Outcome<seq<Message>>)
    requires store.Valid()
    modifies store`handed, store`arrays, store`owner, clock, store.Cached(r)
    ensures store.Valid() && fresh(store.arrays - old(store.arrays)) && clock.now >= old(clock.now)
    ensures res == if r in watcher.repositories && sendOk then Ok(Encoded(old(Pending(store.Cached(r))))) else Error
    ensures res.Ok? ==> |res.value| == |old(Pending(store.Cached(r)))|
    ensures res.Ok? ==> forall k :: 0 <= k < |res.value| ==>
              var e := old(Pending(store.Cached(r)))[k].data;
              && res.value[k].eventId == e.id && res.value[k].body == e.body
              && Decode(Wire(res.value[k])).body == e.body && Decode(Wire(res.value[k])).headers == NonEmpty(e.headers)
              && Decode(Wire(res.value[k])).id == DeliveryId(e.headers)
    ensures res.Ok? ==> forall e :: e in store.Cached(r) ==> e.isRelayed
    ensures res.Ok? ==> AllRelayed(Cells(store.Cached(r)))
    ensures res.Ok? ==> forall e :: e in store.Cached(r) ==>
              if old(e.isRelayed) then e.timeRelayed == old(e.timeRelayed)
                  else old(clock.now) <= e.timeRelayed <= clock.now
    ensures res.Error? ==> Cells(store.Cached(r)) == old(Cells(store.Cached(r)))
    ensures res.Error? ==> Pending(store.Cached(r)) == old(Pending(store.Cached(r)))
  {
    hide InMemoryStore.Valid, Pending, Encoded, InBatch, Decode, Wire, NonEmpty, DeliveryId;
    ghost var ps := store.Cached(r);
    store.CachedIdsDiffer(r);
    res := RetrieveForFetch(watcher, store, r);
    if res.Error? || !sendOk {
      return Error;
    }
    forall e | e in ps ensures InBatch(res.value, e.data.id) <==> !e.isRelayed { BatchNamesPending(ps, e); }
    UpdateRelayStatus(store, res.value, r, clock);
  }

  ghost function Flat(responses: seq<seq<Message>>): seq<Message> {
    if responses == [] then [] else Flat(responses[..|responses|-1]) + responses[|responses|-1]
  }

  /** Where a stream stands. The list was `before` when it began, with `batch` pending, and
      is `after` now, with `next` pending; `upto[k]` is how long it was when the k-th
      response was made. Up to each response exactly `batch` and what had arrived by then
      was sent, in order; what arrived since is pending. */
  ghost predicate Streamed(before: seq<CachedEvent>, batch: seq<Message>, after: seq<CachedEvent>, next: seq<Message>,
                           responses: seq<seq<Message>>, upto: seq<nat>)
  {
    && before <= after && |upto| == |responses|
    && (forall k :: 0 <= k < |upto| ==> SentBy(before, batch, after, responses, k, upto[k]))
    && Flat(responses) + next == batch + Encoded(after[|before|..])
  }

  ghost predicate SentBy(before: seq<CachedEvent>, batch: seq<Message>, after: seq<CachedEvent>,
                         responses: seq<seq<Message>>, k: nat, n: nat) {
    && k < |responses| && |before| <= n <= |after|
    && Flat(responses[..k+1]) == batch + Encoded(after[|before|..n])
  }

  lemma StreamBegins(ps: seq<CachedEvent>, batch: seq<Message>)
    ensures Streamed(ps, batch, ps, batch, [], [])
  {
    assert Encoded(ps[|ps|..]) == [];
  }

  lemma StreamArrives(before: seq<CachedEvent>, batch: seq<Message>, after: seq<CachedEvent>, next: seq<Message>,
                      responses: seq<seq<Message>>, upto: seq<nat>, news: seq<CachedEvent>)
    requires Streamed(before, batch, after, next, responses, upto)
    ensures Streamed(before, batch, after + news, next + Encoded(news), responses, upto)
  {
    var n := |before|;
    forall k | 0 <= k < |upto| ensures SentBy(before, batch, after + news, responses, k, upto[k]) {
      assert SentBy(before, batch, after, responses, k, upto[k]);
      assert (after + news)[n..upto[k]] == after[n..upto[k]];
    }
    assert (after + news)[n..] == after[n..] + news;
    EncodedAppend(after[n..], news);
    assert Flat(responses) + (next + Encoded(news)) == (Flat(responses) + next) + Encoded(news);
    assert batch + (Encoded(after[n..]) + Encoded(news)) == (batch + Encoded(after[n..])) + Encoded(news);
  }

  lemma StreamResponds(before: seq<CachedEvent>, batch: seq<Message>, after: seq<CachedEvent>, next: seq<Message>,
                       responses: seq<seq<Message>>, upto: seq<nat>)
    requires Streamed(before, batch, after, next, responses, upto)
    ensures Streamed(before, batch, after, [], responses + [next], upto + [|after|])
  {
    var all, ends := responses + [next], upto + [|after|];
    assert all[..|responses|] == responses && all[..|all|] == all;
    forall k | 0 <= k < |ends| ensures SentBy(before, batch, after, all, k, ends[k]) {
      if k < |upto| {
        assert SentBy(before, batch, after, responses, k, upto[k]);
        assert all[..k+1] == responses[..k+1];
      } else {
        assert after[|before|..|after|] == after[|before|..];
      }
    }
    assert Flat(all) + [] == Flat(all);
  }

  /** With no arrivals everything goes with the first response, and the others are empty. */
  lemma {:induction false} StreamedQuietly(ps: seq<CachedEvent>, batch: seq<Message>, next: seq<Message>,
                                           responses: seq<seq<Message>>, upto: seq<nat>, k: nat)
    requires Streamed(ps, batch, ps, next, responses, upto) && k < |responses|
    ensures responses[k] == if k == 0 then batch else []
  {
    assert SentBy(ps, batch, ps, responses, k, upto[k]);
    assert Encoded(ps[|ps|..|ps|]) == [] && batch + [] == batch;
    assert responses[..k+1][..k] == responses[..k] && Flat(responses[..k+1]) == Flat(responses[..k]) + responses[k];
    if k == 0 {
    } else {
      assert SentBy(ps, batch, ps, responses, k - 1, upto[k-1]);
    }
  }

  /** What ingest and fetch change: the store, its arrays and the repository's events. */
  ghost function Footprint(store: InMemoryStore, r: string): set<object>
    reads store
  {
    {store} + store.arrays + set e | e in store.Cached(r)
  }

  lemma {:induction false} PendingOfNews(ps: seq<CachedEvent>, news: seq<CachedEvent>)
    requires forall e :: e in news ==> !e.isRelayed
    ensures Pending(ps + news) == Pending(ps) + news
    decreases |news|
  {
    hide Pending;
    if news == [] {
      assert ps + news == ps && Pending(ps) + [] == Pending(ps);
    } else {
      var front, last := news[..|news|-1], news[|news|-1];
      PendingOfNews(ps, front);
      PendingSnoc(ps + front, last);
      assert news == front + [last] && ps + news == (ps + front) + [last];
    }
  }

  lemma PendingSnoc(ps: seq<CachedEvent>, e: CachedEvent)
    requires !e.isRelayed
    ensures Pending(ps + [e]) == Pending(ps) + [e]
  {
    assert (ps + [e])[..|ps|] == ps;
  }

  /** The repository's list is `list`, and `next` is what a fetch would take. */
  ghost predicate Holding(store: InMemoryStore, r: string, list: seq<CachedEvent>, next: seq<Message>)
    reads store, store.arrays, list
  {
    store.Valid() && store.Cached(r) == list && next == Encoded(Pending(list))
  }

  /** Events that come in, by whatever way, while the handler waits. */
  method Arrive(store: InMemoryStore, r: string, datas: seq<EventData>) returns (ghost news: seq<CachedEvent>)
    requires store.Valid()
    modifies store, store.arrays
    ensures store.Valid() && fresh(store.arrays - old(store.arrays))
    ensures store.Cached(r) == old(store.Cached(r)) + news
    ensures forall e :: e in news ==> fresh(e) && !e.isRelayed
    ensures Datas(store.Cached(r)) == AddAll(Datas(old(store.Cached(r))), datas)
  {
    hide InMemoryStore.Valid, Datas, AddAll;
    news := [];
    assert datas[..0] == [];
    AddNone(Datas(store.Cached(r)));
    for i := 0 to |datas|
      invariant store.Valid() && fresh(store.arrays - old(store.arrays))
      invariant store.Cached(r) == old(store.Cached(r)) + news
      invariant forall e :: e in news ==> fresh(e) && !e.isRelayed
      invariant Datas(store.Cached(r)) == AddAll(Datas(old(store.Cached(r))), datas[..i])
    {
      var e := new CachedEvent(datas[i]);
      StoreIsAdd(store.Cached(r), e);
      var stored := store.Store(r, e);
      if stored {
        news := news + [e];
      }
      AddAllAppend(Datas(old(store.Cached(r))), datas[..i], [datas[i]]);
      assert datas[..i+1] == datas[..i] + [datas[i]];
    }
    assert datas[..|datas|] == datas;
  }

  /** The wait of one turn, with what arrives meanwhile. */
  method Gather(store: InMemoryStore, r: string, clock: Clock, interval: nat, arrivals: seq<EventData>,
                ghost list: seq<CachedEvent>, ghost next: seq<Message>)
    returns (ghost news: seq<CachedEvent>)
    requires Holding(store, r, list, next)
    modifies Footprint(store, r), clock
    ensures Holding(store, r, list + news, next + Encoded(news))
    ensures fresh(Footprint(store, r) - old(Footprint(store, r))) && clock.now >= old(clock.now) + interval
    ensures Datas(list + news) == AddAll(Datas(list), arrivals)
  {
    hide InMemoryStore.Valid, Pending, Encoded, Datas, AddAll;
    clock.Wait(interval);
    news := Arrive(store, r, arrivals);
    PendingOfNews(list, news);
    EncodedAppend(Pending(list), news);
  }

  /** The rest of the turn: retrieve, send, mark. */
  method Respond(store: InMemoryStore, watcher: RepositoryWatcher, r: string, clock: Clock, sendOk: bool,
                 ghost list: seq<CachedEvent>, ghost next: seq<Message>)
    returns (res: Outcome<seq<Message>>, now: Time, ghost left: seq<Message>)
    requires Holding(store, r, list, next)
    modifies Footprint(store, r), clock
    ensures Holding(store, r, list, left)
    ensures fresh(Footprint(store, r) - old(Footprint(store, r))) && now == clock.now >= old(clock.now)
    ensures res == if r in watcher.repositories && sendOk then Ok(next) else Error
    ensures left == if res.Ok? then [] else next
  {
    hide InMemoryStore.Valid, Pending, Encoded, Cells, AllRelayed;
    res := FetchTick(store, watcher, r, clock, sendOk);
    NothingPending(list);
    left := if res.Ok? then [] else next;
    now := clock.Now();
  }

  /** One turn of the loop of `FetchWebhookEvents`, with what arrives in its interval, and
      with the clock reading that decides on the next one. */
  method FetchTurn(store: InMemoryStore, watcher: RepositoryWatcher, r: string, clock: Clock, interval: nat,
                   sendOk: bool, arrivals: seq<EventData>,
                   ghost before: seq<CachedEvent>, ghost batch: seq<Message>,
                   responses: seq<seq<Message>>, ghost upto: seq<nat>, ghost list: seq<CachedEvent>,
                   ghost next: seq<Message>)
    returns (ok: bool, more: seq<seq<Message>>, ghost ends: seq<nat>, now: Time, ghost longer: seq<CachedEvent>,
             ghost left: seq<Message>)
    requires Holding(store, r, list, next) && Streamed(before, batch, list, next, responses, upto)
    modifies Footprint(store, r), clock
    ensures Holding(store, r, longer, left) && Streamed(before, batch, longer, left, more, ends)
    ensures fresh(Footprint(store, r) - old(Footprint(store, r))) && now == clock.now >= old(clock.now) + interval
    ensures Datas(longer) == AddAll(Datas(list), arrivals)
    ensures |more| == |responses| + (if ok then 1 else 0)
    ensures ok <==> sendOk && r in watcher.repositories
    ensures ok ==> left == []
  {
    hide Holding, Footprint, Streamed, Datas, AddAll, Encoded;
    ghost var own := Footprint(store, r);
    WatcherApart(store, r, watcher);
    ghost var news := Gather(store, r, clock, interval, arrivals, list, next);
    ghost var gathered := Footprint(store, r);
    assert fresh(gathered - own);
    StreamArrives(before, batch, list, next, responses, upto, news);
    longer := list + news;
    var res: Outcome<seq<Message>>;
    label Gathered:
    res, now, left := Respond(store, watcher, r, clock, sendOk, longer, next + Encoded(news));
    assert forall o :: o in Footprint(store, r) && o !in gathered ==> !old@Gathered(allocated(o));
    assert Footprint(store, r) - own <= (Footprint(store, r) - gathered) + (gathered - own);
    ok, more, ends := res.Ok?, responses, upto;
    if ok {
      StreamResponds(before, batch, longer, next + Encoded(news), responses, upto);
      more, ends := responses + [res.value], upto + [|longer|];
    }
  }

  lemma EncodedAppend(a: seq<CachedEvent>, b: seq<CachedEvent>)
    ensures Encoded(a + b) == Encoded(a) + Encoded(b)
  {}

  /** What arrives in the k-th interval. */
  function Arriving(arrivals: seq<seq<EventData>>, k: nat): seq<EventData> {
    if k < |arrivals| then arrivals[k] else []
  }

  ghost function Arrived(arrivals: seq<seq<EventData>>, n: nat): seq<EventData> {
    if n == 0 then [] else Arrived(arrivals, n - 1) + Arriving(arrivals, n - 1)
  }

  /** The list was `before` and has taken in what arrived in `n` intervals. */
  ghost predicate Grown(before: seq<EventData>, after: seq<EventData>, arrivals: seq<seq<EventData>>, n: nat) {
    after == AddAll(before, Arrived(arrivals, n))
  }

  lemma GrownNext(before: seq<EventData>, mid: seq<EventData>, after: seq<EventData>, arrivals: seq<seq<EventData>>,
                  n: nat)
    requires Grown(before, mid, arrivals, n) && after == AddAll(mid, Arriving(arrivals, n))
    ensures Grown(before, after, arrivals, n + 1)
  {
    AddAllAppend(before, Arrived(arrivals, n), Arriving(arrivals, n));
  }

  /** The loop of `FetchWebhookEvents`. */
  method StreamLoop(store: InMemoryStore, watcher: RepositoryWatcher, r: string, clock: Clock, interval: nat,
                    window: nat, sends: seq<bool>, arrivals: seq<seq<EventData>>,
                    ghost before: seq<CachedEvent>, ghost batch: seq<Message>)
    returns (ok: bool, responses: seq<seq<Message>>, ghost upto: seq<nat>, ghost after: seq<CachedEvent>,
             ghost next: seq<Message>)
    requires Holding(store, r, before, batch) && interval > 0
    modifies Footprint(store, r), clock
    ensures Holding(store, r, after, next)
    ensures |responses| <= CeilDiv(window, interval)
    ensures Streamed(before, batch, after, next, responses, upto)
    ensures Grown(Datas(before), Datas(after), arrivals, if ok then |responses| else |responses| + 1)
    ensures responses != [] ==> r in watcher.repositories && (ok ==> next == [])
    ensures !ok ==> r !in watcher.repositories || (|responses| < |sends| && !sends[|responses|])
    ensures ok ==> |responses| == |sends| || clock.now >= old(clock.now) + window
    ensures |responses| <= |sends| && forall k :: 0 <= k < |responses| ==> sends[k]
  {
    hide CeilDiv, Span, Fits, Streamed, Footprint, Datas, Grown, Holding, Pending, Encoded, AddAll;
    ok, responses, upto, after, next := true, [], [], before, batch;
    SpanNext(0, interval);
    FitsNone(window, interval);
    StreamBegins(before, batch);
    GrownNone(Datas(before), arrivals);
    var start := clock.Now();
    var finish := start + window;
    var now := clock.Now();
    while now < finish
      invariant Holding(store, r, after, next) && fresh(Footprint(store, r) - old(Footprint(store, r)))
      invariant now == clock.now && start + Span(|responses|, interval) <= now
      invariant Fits(|responses|, window, interval)
      invariant Streamed(before, batch, after, next, responses, upto)
      invariant Grown(Datas(before), Datas(after), arrivals, |responses|)
      invariant ok && (responses != [] ==> r in watcher.repositories && next == [])
      invariant |responses| <= |sends| && forall k :: 0 <= k < |responses| ==> sends[k]
      decreases finish - now
    {
      var n := |responses|;
      if n == |sends| {
        break;
      }
      SpanNext(n, interval);
      FitsNext(n, start, now, window, interval);
      ghost var mid, own := Datas(after), Footprint(store, r);
      WatcherApart(store, r, watcher);
      label Turn:
      ok, responses, upto, now, after, next :=
        FetchTurn(store, watcher, r, clock, interval, sends[n], Arriving(arrivals, n), before, batch, responses, upto,
            after, next);
      GrownNext(Datas(before), mid, Datas(after), arrivals, n);
      assert forall o :: o in Footprint(store, r) && o !in own ==> !old@Turn(allocated(o));
      if !ok {
        break;
      }
    }
    TicksFit(|responses|, window, interval);
  }

  /** `FetchWebhookEvents`, on a repository whose list is `before` with `batch` pending.
      `sends[k]` says whether the k-th `Send` succeeds; when they run out one of the
      contexts is done. `arrivals[k]` is what comes in while the handler waits for the k-th
      time. It responds at most ceil(window / interval) times; together the responses
      carry, in order and once, all that was pending and all that arrived, up to the last
      response; the rest (`next`) is pending, and after a failed send that is the whole
      batch. So every response was a send that succeeded, and an event that is relayed now
      and was not before is in one of them. */
  method FetchWebhookEvents(store: InMemoryStore, watcher: RepositoryWatcher, r: string, clock: Clock, interval: nat,
                            window: nat, sends: seq<bool>, arrivals: seq<seq<EventData>>,
                            ghost before: seq<CachedEvent>, ghost batch: seq<Message>)
    returns (ok: bool, responses: seq<seq<Message>>, ghost upto: seq<nat>, ghost after: seq<CachedEvent>,
             ghost next: seq<Message>)
    requires Holding(store, r, before, batch) && interval > 0
    modifies Footprint(store, r), clock
    ensures Holding(store, r, after, next)
    ensures |responses| <= CeilDiv(window, interval)
    ensures Streamed(before, batch, after, next, responses, upto)
    ensures Grown(Datas(before), Datas(after), arrivals, if ok then |responses| else |responses| + 1)
    ensures responses != [] ==> r in watcher.repositories && (ok ==> next == [])
    ensures !ok ==> r !in watcher.repositories || (|responses| < |sends| && !sends[|responses|])
    ensures ok ==> |responses| == |sends| || clock.now >= old(clock.now) + window
    ensures forall k :: 0 <= k < |responses| ==> k < |sends| && sends[k]
    ensures forall k :: 0 <= k < |responses| ==> forall m :: m in responses[k] ==>
              exists p :: 0 <= p < |after| && after[p].data.id == m.eventId && after[p].data.body == m.body
    ensures forall e :: e in after ==>
              (e in before && old(e.isRelayed)) || !e.isRelayed ||
              exists k, m :: 0 <= k < |responses| && m in responses[k]
                && m.eventId == e.data.id && m.body == e.data.body
    ensures ok && responses != [] ==> forall e :: e in after ==> e.isRelayed
    ensures before <= after
    ensures forall k, i :: 0 <= k < |arrivals| && k < |responses| + (if ok then 0 else 1) && 0 <= i < |arrivals[k]| ==>
              HoldsId(after, arrivals[k][i].id)
    ensures forall e :: e in after ==>
              (exists p :: 0 <= p < |before| && before[p].data == e.data) ||
              exists k :: 0 <= k < |arrivals| && k < |responses| + (if ok then 0 else 1) && e.data in arrivals[k]
  {
    hide CeilDiv, Span, Fits, Streamed, Footprint, Datas, Grown, Holding, Pending, Encoded, AddAll;
    ghost var pending := Pending(before);
    HoldingMeans(store, r, before, batch);
    PendingWithin(before);
    ok, responses, upto, after, next :=
      StreamLoop(store, watcher, r, clock, interval, window, sends, arrivals, before, batch);
    HoldingMeans(store, r, after, next);
    ResponsesCarry(pending, before, batch, after, next, responses, upto);
    GrownMeans(before, after, arrivals, if ok then |responses| else |responses| + 1);
  }

  lemma PendingWithin(ps: seq<CachedEvent>)
    ensures forall i :: 0 <= i < |Pending(ps)| ==> Pending(ps)[i] in ps
    ensures forall i :: 0 <= i < |ps| && !ps[i].isRelayed ==> ps[i] in Pending(ps)
  {
    forall i | 0 <= i < |Pending(ps)| ensures Pending(ps)[i] in ps { PendingAre(ps, Pending(ps)[i]); }
    forall i | 0 <= i < |ps| && !ps[i].isRelayed ensures ps[i] in Pending(ps) { PendingAre(ps, ps[i]); }
  }

  lemma {:induction false} FlatAre(responses: seq<seq<Message>>, m: Message)
    ensures m in Flat(responses) <==> exists k :: 0 <= k < |responses| && m in responses[k]
  {
    if responses == [] {
    } else {
      var front, last := responses[..|responses|-1], responses[|responses|-1];
      FlatAre(front, m);
      if k :| 0 <= k < |responses| && m in responses[k] {
        assert k < |front| ==> front[k] == responses[k];
      }
      if m in Flat(front) {
        var k :| 0 <= k < |front| && m in front[k];
        assert responses[k] == front[k];
      }
    }
  }

  lemma EncodedFrom(ps: seq<CachedEvent>, m: Message) returns (e: CachedEvent)
    requires m in Encoded(ps)
    ensures e in ps && m.eventId == e.data.id && m.body == e.data.body
  {
    var i :| 0 <= i < |ps| && Encoded(ps)[i] == m;
    e := ps[i];
  }

  /** What the responses carry, message by message: only events of the list, and every event
      that was pending or arrived, except those that are pending now. */
  lemma {:induction false} ResponsesCarry(pending: seq<CachedEvent>, before: seq<CachedEvent>, batch: seq<Message>,
                                          after: seq<CachedEvent>, next: seq<Message>,
                                          responses: seq<seq<Message>>, upto: seq<nat>)
    requires Streamed(before, batch, after, next, responses, upto) && batch == Encoded(pending)
    requires (forall i :: 0 <= i < |pending| ==> pending[i] in before)
    requires next == Encoded(Pending(after)) && DistinctIds(after)
    ensures before <= after
    ensures forall k :: 0 <= k < |responses| ==> forall m :: m in responses[k] ==>
              exists p :: 0 <= p < |after| && after[p].data.id == m.eventId && after[p].data.body == m.body
    ensures forall e :: e in after && (e in pending || e !in before) ==>
              !e.isRelayed ||
              exists k, m :: 0 <= k < |responses| && m in responses[k]
                && m.eventId == e.data.id && m.body == e.data.body
    ensures next == [] ==> forall e :: e in after ==> e.isRelayed
  {
    hide Pending, Encode, Flat;
    var news := after[|before|..];
    var all := batch + Encoded(news);
    assert after == before + news;
    forall k | 0 <= k < |responses|
      ensures forall m :: m in responses[k] ==>
                exists p :: 0 <= p < |after| && after[p].data.id == m.eventId && after[p].data.body == m.body
    {
      forall m | m in responses[k]
        ensures exists p :: 0 <= p < |after| && after[p].data.id == m.eventId && after[p].data.body == m.body
      {
        FlatAre(responses, m);
        assert m in Flat(responses) + next;
        var e: CachedEvent;
        if m in batch { e := EncodedFrom(pending, m); } else { e := EncodedFrom(news, m); }
        assert e in after;
        var p :| 0 <= p < |after| && after[p] == e;
      }
    }
    forall e | e in after && (e in pending || e !in before) && e.isRelayed
      ensures exists k, m :: 0 <= k < |responses| && m in responses[k]
                && m.eventId == e.data.id && m.body == e.data.body
    {
      var m := InEncoded(if e in pending then pending else news, e);
      assert m in all && m in Flat(responses) + next;
      if m in next {
        var p := EncodedFrom(Pending(after), m);
        NotPending(after, e, p);
      }
      FlatAre(responses, m);
    }
    forall e | e in after && next == [] ensures e.isRelayed { PendingAre(after, e); }
  }

  lemma InEncoded(ps: seq<CachedEvent>, e: CachedEvent) returns (m: Message)
    requires e in ps
    ensures m in Encoded(ps) && m.eventId == e.data.id && m.body == e.data.body
  {
    var i :| 0 <= i < |ps| && ps[i] == e;
    m := Encoded(ps)[i];
  }

  /** A relayed event shares its ID with no pending one. */
  lemma NotPending(ps: seq<CachedEvent>, e: CachedEvent, p: CachedEvent)
    requires DistinctIds(ps) && e in ps && e.isRelayed && p in Pending(ps)
    ensures p.data.id != e.data.id
  {
    PendingAre(ps, p);
    var i :| 0 <= i < |ps| && ps[i] == e;
    var j :| 0 <= j < |ps| && ps[j] == p;
  }

  lemma {:induction false} ArrivedAre(arrivals: seq<seq<EventData>>, n: nat, d: EventData)
    ensures d in Arrived(arrivals, n) <==> exists k :: 0 <= k < |arrivals| && k < n && d in arrivals[k]
  {
    if n == 0 {
    } else {
      ArrivedAre(arrivals, n - 1, d);
    }
  }

  /** The list keeps what it held, holds every delivery that arrived, and nothing else. */
  lemma {:induction false} GrownMeans(before: seq<CachedEvent>, after: seq<CachedEvent>,
                                      arrivals: seq<seq<EventData>>, n: nat)
    requires Grown(Datas(before), Datas(after), arrivals, n)
    ensures forall k, i :: 0 <= k < |arrivals| && k < n && 0 <= i < |arrivals[k]| ==> HoldsId(after, arrivals[k][i].id)
    ensures forall e :: e in after ==>
              (exists p :: 0 <= p < |before| && before[p].data == e.data) ||
              exists k :: 0 <= k < |arrivals| && k < n && e.data in arrivals[k]
  {
    hide AddAll, Arrived;
    var es := Arrived(arrivals, n);
    AddAllMembers(Datas(before), es);
    assert |Datas(after)| == |after| && |Datas(before)| == |before|;
    forall k, i | 0 <= k < |arrivals| && k < n && 0 <= i < |arrivals[k]| ensures HoldsId(after, arrivals[k][i].id) {
      ArrivedAre(arrivals, n, arrivals[k][i]);
      var j :| 0 <= j < |es| && es[j] == arrivals[k][i];
      assert HasEvent(Datas(after), es[j].id);
      var p :| 0 <= p < |after| && Datas(after)[p].id == es[j].id;
      assert after[p].data.id == es[j].id;
    }
    forall e | e in after
      ensures (exists p :: 0 <= p < |before| && before[p].data == e.data) ||
              exists k :: 0 <= k < |arrivals| && k < n && e.data in arrivals[k]
    {
      var q :| 0 <= q < |after| && after[q] == e;
      assert Datas(after)[q] == e.data;
      if e.data in Datas(before) {
        var p :| 0 <= p < |before| && Datas(before)[p] == e.data;
        assert before[p].data == e.data;
      } else {
        ArrivedAre(arrivals, n, e.data);
      }
    }
  }

  lemma HoldingMeans(store: InMemoryStore, r: string, list: seq<CachedEvent>, next: seq<Message>)
    requires Holding(store, r, list, next)
    ensures store.Valid() && store.Cached(r) == list && next == Encoded(Pending(list)) && DistinctIds(list)
  {
    store.CachedIdsDiffer(r);
  }

  lemma WatcherApart(store: InMemoryStore, r: string, watcher: RepositoryWatcher)
    ensures watcher !in Footprint(store, r)
  {}

  lemma GrownNone(before: seq<EventData>, arrivals: seq<seq<EventData>>)
    ensures Grown(before, before, arrivals, 0)
  {}
}

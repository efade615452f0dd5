/** The two ways an event is admitted to a server's cache, and which repositories end up
    holding events. */
module Admission {
  import opened Events
  import opened Codec
  import opened CacheSpec
  import opened EventStore
  import opened Repositories
  import opened Ticks

  const TARGET_ID_HEADER := "X-Github-Hook-Installation-Target-Id"
  const TARGET_TYPE_HEADER := "X-Github-Hook-Installation-Target-Type"

  const CREATED := 201
  const NO_CONTENT := 204
  const BAD_REQUEST := 400
  const NOT_ACCEPTABLE := 406

  /** Every repository that holds events is watched, so it can be fetched and the cleaner
      visits it. */
  ghost predicate WatchClosed(contents: map<string, seq<CachedEvent>>, watched: seq<string>) {
    forall r :: Lookup(contents, r) != [] ==> r in watched
  }

  ghost function Lookup(contents: map<string, seq<CachedEvent>>, r: string): seq<CachedEvent> {
    if r in contents then contents[r] else []
  }

  /** `cache.InternalEvent`: build the event of a request and store it. */
  method CachePost(store: InMemoryStore, r: string, headers: HttpHeaders, body: Bytes) returns (stored: bool)
    requires store.Valid() && ValuesPresent(headers)
    modifies store, store.arrays
    ensures store.Valid() && fresh(store.arrays - old(store.arrays)) && store.handed == old(store.handed)
    ensures stored <==> !HoldsId(old(store.Cached(r)), PostedId(headers))
    ensures if stored then Appended(old(store.contents), store.contents, r, headers, body)
              else store.contents == old(store.contents)
    ensures stored ==>
              var e := store.Cached(r)[|store.Cached(r)| - 1];
              fresh(e) && !e.isRelayed && e.timeRelayed == ZERO_TIME
    ensures stored ==> store.Cached(r)[|store.Cached(r)| - 1].data.body == body
    ensures stored ==> forall k :: k in headers ==>
              Header(k, headers[k][0]) in store.Cached(r)[|store.Cached(r)| - 1].data.headers
  {
    hide InMemoryStore.Valid, HoldsId, FromPost, IsOrderOf, Appended;
    var data := InternalEvent(headers, body);
    EachHeaderIsThere(data, headers);
    var e := new CachedEvent(data);
    ghost var before := store.contents;
    stored := store.Store(r, e);
    if stored {
      OneAppended(before, r, e, headers, body);
    }
  }

  lemma EachHeaderIsThere(data: EventData, headers: HttpHeaders)
    requires ValuesPresent(headers) && |data.headers| >= |headers|
    requires forall i :: |headers| <= i < |data.headers| ==>
               data.headers[i].key in headers && data.headers[i].firstValue == headers[data.headers[i].key][0]
    requires forall k :: k in headers ==> exists i :: |headers| <= i < |data.headers| && data.headers[i].key == k
    ensures forall k :: k in headers ==> Header(k, headers[k][0]) in data.headers
  {
    forall k | k in headers ensures Header(k, headers[k][0]) in data.headers {
      var i :| |headers| <= i < |data.headers| && data.headers[i].key == k;
      assert data.headers[i] == Header(k, headers[k][0]);
    }
  }

  /** One event was added, at the end of one repository's list, and it is the event the
      request makes for some iteration order of its headers. */
  ghost predicate Appended(before: map<string, seq<CachedEvent>>, after: map<string, seq<CachedEvent>>, r: string,
                           headers: HttpHeaders, body: Bytes)
    requires ValuesPresent(headers)
  {
    && |Lookup(after, r)| == |Lookup(before, r)| + 1
    && Lookup(after, r)[..|Lookup(before, r)|] == Lookup(before, r)
    && (exists order ::
          IsOrderOf(order, headers) && Lookup(after, r)[|Lookup(before, r)|].data == FromPost(order, headers, body))
    && SameElsewhere(before, after, r)
  }

  lemma OneAppended(before: map<string, seq<CachedEvent>>, r: string, e: CachedEvent, headers: HttpHeaders, body: Bytes)
    requires ValuesPresent(headers)
    requires exists order :: IsOrderOf(order, headers) && e.data == FromPost(order, headers, body)
    ensures Appended(before, before[r := Lookup(before, r) + [e]], r, headers, body)
  {
    hide FromPost, IsOrderOf;
    var order :| IsOrderOf(order, headers) && e.data == FromPost(order, headers, body);
  }

  lemma AppendedKeepsClosure(before: map<string, seq<CachedEvent>>, after: map<string, seq<CachedEvent>>, r: string,
                             headers: HttpHeaders, body: Bytes, watched: seq<string>)
    requires ValuesPresent(headers) && Appended(before, after, r, headers, body) && r in watched
    ensures WatchClosed(before, watched) ==> WatchClosed(after, watched)
  {
    forall q | q != r ensures Lookup(after, q) == Lookup(before, q) {}
  }

  /** `HandleGitHubPost`. The request's target type is read without a check once there is a
      target ID, so it has to be there. */
  method HandleGitHubPost(store: InMemoryStore, watcher: RepositoryWatcher, headers: HttpHeaders, body: Bytes,
                          mac: (string, Bytes) -> string, token: string)
    returns (code: int)
    requires store.Valid() && ValuesPresent(headers)
    requires TARGET_ID_HEADER in headers ==> TARGET_TYPE_HEADER in headers
    modifies store, store.arrays
    ensures store.Valid() && fresh(store.arrays - old(store.arrays)) && store.handed == old(store.handed)
    ensures var repo := TARGET_ID_HEADER in headers && headers[TARGET_TYPE_HEADER][0] == "repository";
            var signed := token == "" || (SIGNATURE_HEADER in headers && headers[SIGNATURE_HEADER][0] != ""
                && headers[SIGNATURE_HEADER][0] == mac(token, body));
            && (code == BAD_REQUEST <==> repo && !signed)
            && (code == NOT_ACCEPTABLE <==>
                !repo || (signed && headers[TARGET_ID_HEADER][0] !in watcher.repositories))
            && (code == NO_CONTENT <==>
                && repo && signed && headers[TARGET_ID_HEADER][0] in watcher.repositories
                && HoldsId(old(store.Cached(headers[TARGET_ID_HEADER][0])),
                     if DELIVERY_ID_HEADER in headers then headers[DELIVERY_ID_HEADER][0] else ""))
    ensures code in {CREATED, NO_CONTENT, BAD_REQUEST, NOT_ACCEPTABLE}
    ensures code == CREATED <==>
              && TARGET_ID_HEADER in headers && headers[TARGET_TYPE_HEADER][0] == "repository"
              && (token != "" ==> SIGNATURE_HEADER in headers && headers[SIGNATURE_HEADER][0] != "")
              && (token != "" ==> headers[SIGNATURE_HEADER][0] == mac(token, body))
              && headers[TARGET_ID_HEADER][0] in watcher.repositories
              && !HoldsId(old(store.Cached(headers[TARGET_ID_HEADER][0])),
                          if DELIVERY_ID_HEADER in headers then headers[DELIVERY_ID_HEADER][0] else "")
    ensures code == CREATED ==>
              Appended(old(store.contents), store.contents, headers[TARGET_ID_HEADER][0], headers, body)
    ensures code == CREATED ==>
              var list := store.Cached(headers[TARGET_ID_HEADER][0]);
              var e := list[|list| - 1];
              && fresh(e) && !e.isRelayed && e.timeRelayed == ZERO_TIME && e.data.body == body
              && (forall k :: k in headers ==> Header(k, headers[k][0]) in e.data.headers)
    ensures token == "" ==> code != BAD_REQUEST
    ensures token != "" && (SIGNATURE_HEADER !in headers || headers[SIGNATURE_HEADER][0] != mac(token, body)) ==>
              code != CREATED && store.contents == old(store.contents)
    ensures code != CREATED ==> store.contents == old(store.contents)
    ensures WatchClosed(old(store.contents), watcher.repositories) ==> WatchClosed(store.contents, watcher.repositories)
  {
    hide InMemoryStore.Valid, Appended, HoldsId, WatchClosed;
    if |headers| == 0 || TARGET_ID_HEADER !in headers || headers[TARGET_TYPE_HEADER][0] != "repository" {
      return NOT_ACCEPTABLE;
    }
    if token != "" {
      var valid := ValidMessage(mac, token, PostedDigest(headers), body);
      if !valid {
        return BAD_REQUEST;
      }
    }
    var target := headers[TARGET_ID_HEADER][0];
    var watched := watcher.RepositoryIsWatched(target);
    if !watched {
      return NOT_ACCEPTABLE;
    }
    var stored := CachePost(store, target, headers, body);
    if stored {
      AppendedKeepsClosure(old(store.contents), store.contents, target, headers, body, watcher.repositories);
      return CREATED;
    }
    return NO_CONTENT;
  }

  /** `WebhookEventPush` does not ask whether the repository is watched. Afterwards only
      watched repositories hold events exactly if that was so and this one is watched;
      otherwise the event sits where no fetch and no cleaner looks. */
  method WebhookEventPush(store: InMemoryStore, watcher: RepositoryWatcher, r: string, m: Message)
    returns (accepted: bool)
    requires store.Valid() && NoNil(m)
    modifies store, store.arrays
    ensures store.Valid() && fresh(store.arrays - old(store.arrays)) && accepted
    ensures Datas(store.Cached(r)) == AddAll(Datas(old(store.Cached(r))), [Decode(m)])
    ensures HoldsId(store.Cached(r), DeliveryId(Received(m)))
    ensures store.Cached(r) == old(store.Cached(r)) ||
            (|store.Cached(r)| == |old(store.Cached(r))| + 1 && old(store.Cached(r)) <= store.Cached(r)
             && store.Cached(r)[|old(store.Cached(r))|].data == Decode(m)
             && store.Cached(r)[|old(store.Cached(r))|].data.body == m.body)
    ensures SameElsewhere(old(store.contents), store.contents, r)
    ensures WatchClosed(store.contents, watcher.repositories) <==>
              WatchClosed(old(store.contents), watcher.repositories) && r in watcher.repositories
  {
    hide InMemoryStore.Valid;
    ghost var before := store.contents;
    CacheEvent(store, r, m);
    AddOne(Datas(Lookup(before, r)), Decode(m));
    assert |Datas(Lookup(store.contents, r))| == |Lookup(store.contents, r)|;
    assert |Datas(Lookup(before, r))| == |Lookup(before, r)|;
    forall q | q != r ensures Lookup(store.contents, q) == Lookup(before, q) {}
    accepted := true;
  }

  datatype Request = Post(headers: HttpHeaders, body: Bytes) | CleanTick

  /** On any run of posts and cleaner ticks from a closed cache, every event sits in a
      watched repository. */
  method PostsKeepClosure(store: InMemoryStore, watcher: RepositoryWatcher, clock: Clock, requests: seq<Request>,
                          mac: (string, Bytes) -> string, token: string)
    returns (codes: seq<int>)
    requires store.Valid() && WatchClosed(store.contents, watcher.repositories)
    requires forall i :: 0 <= i < |requests| && requests[i].Post? ==>
               && ValuesPresent(requests[i].headers)
               && (TARGET_ID_HEADER in requests[i].headers ==> TARGET_TYPE_HEADER in requests[i].headers)
    modifies store, store.arrays, clock
    ensures store.Valid() && WatchClosed(store.contents, watcher.repositories)
  {
    hide InMemoryStore.Valid, Appended;
    codes := [];
    for i := 0 to |requests|
      invariant store.Valid() && fresh(store.arrays - old(store.arrays))
      invariant WatchClosed(store.contents, watcher.repositories)
    {
      match requests[i]
      case Post(headers, body) =>
        var code := HandleGitHubPost(store, watcher, headers, body, mac, token);
        codes := codes + [code];
      case CleanTick =>
        ghost var before := store.contents;
        CleanupTick(watcher, store, clock);
        forall r | r !in watcher.repositories ensures Lookup(store.contents, r) == Lookup(before, r) {
          assert store.Cached(r) == Lookup(store.contents, r);
        }
    }
  }
}

/** The event codec: from an HTTP request to a cached event, from a cached event to
    a message, over the wire, back to a cached event, and out as HTTP headers. */
module Codec {
  import opened Events

  // ---------- Meaning of the four conversions ----------

  predicate Significant(h: Header) {
    h.key != "" && h.firstValue != ""
  }

  /** The headers that survive a hop, in order. */
  function NonEmpty(hs: seq<Header>): seq<Header> {
    if hs == [] then []
    else NonEmpty(hs[..|hs|-1]) + (if Significant(hs[|hs|-1]) then [hs[|hs|-1]] else [])
  }

  /** The delivery ID a header list carries: the last significant match, or "". */
  function DeliveryId(hs: seq<Header>): string {
    if hs == [] then ""
    else
      var h := hs[|hs|-1];
      if Significant(h) && h.key == DELIVERY_ID_HEADER then h.firstValue else DeliveryId(hs[..|hs|-1])
  }

  /** An event whose ID agrees with its own headers. */
  predicate Coherent(e: EventData) {
    e.id == DeliveryId(e.headers)
  }

  function OnWire(h: Header): WireHeader {
    WireHeader(h.key, h.firstValue)
  }

  /** `InternalToExternalEvent`: as many nil headers as real ones come first. */
  function Encode(e: EventData): Message {
    var n := |e.headers|;
    Message(e.id, e.body, seq(n, _ => NilHeader) + seq(n, i requires 0 <= i < n => OnWire(e.headers[i])))
  }

  /** Transport: a nil element of a repeated message field arrives as an empty message. */
  function Wire(m: Message): (r: Message)
    ensures NoNil(r)
  {
    m.(headers := seq(|m.headers|, i requires 0 <= i < |m.headers| =>
                    if m.headers[i].NilHeader? then WireHeader("", "") else m.headers[i]))
  }

  predicate NoNil(m: Message) {
    forall i :: 0 <= i < |m.headers| ==> m.headers[i].WireHeader?
  }

  function Received(m: Message): seq<Header>
    requires NoNil(m)
  {
    seq(|m.headers|, i requires 0 <= i < |m.headers| => Header(m.headers[i].name, m.headers[i].values))
  }

  /** `ExternalToInternalEvent`. */
  function Decode(m: Message): EventData
    requires NoNil(m)
  {
    EventData(DeliveryId(Received(m)), NonEmpty(Received(m)), m.body)
  }

  /** One hop between two processes. */
  function Hop(e: EventData): EventData {
    Decode(Wire(Encode(e)))
  }

  function Hops(e: EventData, k: nat): EventData {
    if k == 0 then e else Hop(Hops(e, k - 1))
  }

  // ---------- The loops ----------

  method InternalToExternalEvent(e: EventData) returns (m: Message)
    ensures m == Encode(e)
    ensures m.eventId == e.id && m.body == e.body && |m.headers| == 2 * |e.headers|
    ensures forall i :: 0 <= i < |e.headers| ==> m.headers[i] == NilHeader
    ensures forall i :: 0 <= i < |e.headers| ==>
              m.headers[|e.headers| + i] == WireHeader(e.headers[i].key, e.headers[i].firstValue)
  {
    var headers := seq(|e.headers|, _ => NilHeader);
    for i := 0 to |e.headers|
      invariant headers == seq(|e.headers|, _ => NilHeader) + Encode(e).headers[|e.headers|..|e.headers| + i]
    {
      headers := headers + [OnWire(e.headers[i])];
    }
    m := Message(e.id, e.body, headers);
  }

  method ExternalToInternalEvent(m: Message) returns (e: EventData)
    requires NoNil(m)
    ensures e == Decode(m) && e.body == m.body
    ensures forall h :: h in e.headers <==>
              h.key != "" && h.firstValue != "" && WireHeader(h.key, h.firstValue) in m.headers
    ensures (forall i :: 0 <= i < |m.headers| && m.headers[i].name == DELIVERY_ID_HEADER ==>
              m.headers[i].values == "") ==>
              e.id == ""
    ensures forall i :: 0 <= i < |m.headers| && m.headers[i].name == DELIVERY_ID_HEADER && m.headers[i].values != "" ==>
              e.id == m.headers[i].values ||
              exists j :: i < j < |m.headers| && m.headers[j].name == DELIVERY_ID_HEADER && m.headers[j].values != ""
  {
    var headers := [];
    var deliveryId := "";
    for i := 0 to |m.headers|
      invariant headers == NonEmpty(Received(m)[..i])
      invariant deliveryId == DeliveryId(Received(m)[..i])
    {
      assert Received(m)[..i+1][..i] == Received(m)[..i];
      var key, value := m.headers[i].name, m.headers[i].values;
      if key != "" && value != "" {
        if key == DELIVERY_ID_HEADER {
          deliveryId := value;
        }
        headers := headers + [Header(key, value)];
      }
    }
    assert Received(m)[..|m.headers|] == Received(m);
    e := EventData(deliveryId, headers, m.body);
    DeliveryIdOfMessage(m);
    forall h ensures h in e.headers <==> Significant(h) && WireHeader(h.key, h.firstValue) in m.headers {
      NonEmptyMember(Received(m), h);
      ReceivedMember(m, h);
    }
  }

  lemma DeliveryIdOfMessage(m: Message)
    requires NoNil(m)
    ensures (forall i :: 0 <= i < |m.headers| && m.headers[i].name == DELIVERY_ID_HEADER ==>
              m.headers[i].values == "") ==>
              DeliveryId(Received(m)) == ""
    ensures forall i :: 0 <= i < |m.headers| && m.headers[i].name == DELIVERY_ID_HEADER && m.headers[i].values != "" ==>
              DeliveryId(Received(m)) == m.headers[i].values ||
              exists j :: i < j < |m.headers| && m.headers[j].name == DELIVERY_ID_HEADER && m.headers[j].values != ""
  {
    var hs := Received(m);
    DeliveryIdIs(hs);
    assert forall i :: 0 <= i < |hs| ==> hs[i] == Header(m.headers[i].name, m.headers[i].values);
    forall i | 0 <= i < |m.headers| && m.headers[i].name == DELIVERY_ID_HEADER && m.headers[i].values != ""
      ensures DeliveryId(hs) == m.headers[i].values ||
              exists j :: i < j < |m.headers| && m.headers[j].name == DELIVERY_ID_HEADER && m.headers[j].values != ""
    {
      if DeliveryId(hs) != hs[i].firstValue {
        var j :| i < j < |hs| && hs[j].key == DELIVERY_ID_HEADER && hs[j].firstValue != "";
        assert m.headers[j].name == DELIVERY_ID_HEADER;
      }
    }
  }

  lemma ReceivedMember(m: Message, h: Header)
    requires NoNil(m)
    ensures h in Received(m) <==> WireHeader(h.key, h.firstValue) in m.headers
  {
    if h in Received(m) {
      var i :| 0 <= i < |m.headers| && Received(m)[i] == h;
      assert m.headers[i] == WireHeader(h.key, h.firstValue);
    }
    if WireHeader(h.key, h.firstValue) in m.headers {
      var i :| 0 <= i < |m.headers| && m.headers[i] == WireHeader(h.key, h.firstValue);
      assert Received(m)[i] == h;
    }
  }

  /** The reference reading of `DeliveryId`. */
  lemma {:induction false} DeliveryIdIs(hs: seq<Header>)
    ensures (forall i :: 0 <= i < |hs| && hs[i].key == DELIVERY_ID_HEADER ==> hs[i].firstValue == "") ==>
              DeliveryId(hs) == ""
    ensures forall i :: 0 <= i < |hs| && hs[i].key == DELIVERY_ID_HEADER && hs[i].firstValue != "" ==>
              DeliveryId(hs) == hs[i].firstValue ||
              exists j :: i < j < |hs| && hs[j].key == DELIVERY_ID_HEADER && hs[j].firstValue != ""
  {
    if hs == [] {
    } else {
      var n := |hs| - 1;
      var front := hs[..n];
      DeliveryIdIs(front);
      forall i | 0 <= i < |hs| && hs[i].key == DELIVERY_ID_HEADER && hs[i].firstValue != ""
        ensures DeliveryId(hs) == hs[i].firstValue ||
                exists j :: i < j < |hs| && hs[j].key == DELIVERY_ID_HEADER && hs[j].firstValue != ""
      {
        if i < n && !(hs[n].key == DELIVERY_ID_HEADER && hs[n].firstValue != "") {
          assert front[i] == hs[i];
          if DeliveryId(front) != front[i].firstValue {
            var j :| i < j < n && front[j].key == DELIVERY_ID_HEADER && front[j].firstValue != "";
            assert hs[j] == front[j];
          }
        }
      }
      assert forall i :: 0 <= i < n ==> front[i] == hs[i];
    }
  }

  /** `eventHeadersToHTTPHeaders`: the last header of a name wins. */
  function ToHttp(hs: seq<Header>): HttpHeaders {
    if hs == [] then map[] else ToHttp(hs[..|hs|-1])[hs[|hs|-1].key := [hs[|hs|-1].firstValue]]
  }

  lemma {:induction false} ToHttpKeys(hs: seq<Header>, k: string)
    ensures k in ToHttp(hs) <==> exists h :: h in hs && h.key == k
  {
    if hs == [] {
    } else {
      var front, last := hs[..|hs|-1], hs[|hs|-1];
      ToHttpKeys(front, k);
      assert hs == front + [last];
      assert last in hs;
    }
  }

  lemma {:induction false} ToHttpLast(hs: seq<Header>, i: nat)
    requires i < |hs| && forall j :: i < j < |hs| ==> hs[j].key != hs[i].key
    ensures hs[i].key in ToHttp(hs) && ToHttp(hs)[hs[i].key] == [hs[i].firstValue]
  {
    if i < |hs| - 1 {
      ToHttpLast(hs[..|hs|-1], i);
    }
  }

  method EventHeadersToHttpHeaders(hs: seq<Header>) returns (headers: HttpHeaders)
    ensures headers == ToHttp(hs)
    ensures forall k :: k in headers <==> exists i :: 0 <= i < |hs| && hs[i].key == k
    ensures forall i :: 0 <= i < |hs| && (forall j :: i < j < |hs| ==> hs[j].key != hs[i].key) ==>
              headers[hs[i].key] == [hs[i].firstValue]
  {
    headers := map[];
    for i := 0 to |hs|
      invariant headers == ToHttp(hs[..i])
    {
      assert hs[..i+1][..i] == hs[..i];
      headers := headers[hs[i].key := [hs[i].firstValue]];
    }
    assert hs[..|hs|] == hs;
    forall k: string ensures k in headers <==> exists i :: 0 <= i < |hs| && hs[i].key == k { ToHttpKeys(hs, k); }
    forall i | 0 <= i < |hs| && (forall j :: i < j < |hs| ==> hs[j].key != hs[i].key)
      ensures headers[hs[i].key] == [hs[i].firstValue]
    {
      ToHttpLast(hs, i);
    }
  }

  // ---------- From an HTTP request ----------

  /** What net/http guarantees of a request's headers: no name without a value. */
  predicate ValuesPresent(headers: HttpHeaders) {
    forall k :: k in headers ==> headers[k] != []
  }

  /** `http.Header.Get` for the delivery header, whose name is already canonical. */
  function PostedId(headers: HttpHeaders): string {
    if DELIVERY_ID_HEADER in headers && headers[DELIVERY_ID_HEADER] != []
    then headers[DELIVERY_ID_HEADER][0] else ""
  }

  /** `order` lists every key of the map once: one possible iteration order. */
  predicate IsOrderOf(order: seq<string>, headers: HttpHeaders) {
    && (forall i :: 0 <= i < |order| ==> order[i] in headers)
    && (forall k :: k in headers ==> k in order)
    && (forall i, j :: 0 <= i < j < |order| ==> order[i] != order[j])
  }

  function Listed(order: seq<string>, headers: HttpHeaders): seq<Header>
    requires forall i :: 0 <= i < |order| ==> order[i] in headers && headers[order[i]] != []
  {
    seq(|order|, i requires 0 <= i < |order| => Header(order[i], headers[order[i]][0]))
  }

  function Padding(n: nat): seq<Header> {
    seq(n, _ => Header("", ""))
  }

  /** `InternalEvent`: the event built from a POST, for one iteration order. */
  function FromPost(order: seq<string>, headers: HttpHeaders, body: Bytes): EventData
    requires IsOrderOf(order, headers) && ValuesPresent(headers)
  {
    EventData(PostedId(headers), Padding(|headers|) + Listed(order, headers), body)
  }

  method InternalEvent(headers: HttpHeaders, body: Bytes) returns (e: EventData)
    requires ValuesPresent(headers)
    ensures exists order :: IsOrderOf(order, headers) && e == FromPost(order, headers, body)
    ensures e.body == body && |e.headers| == 2 * |headers|
    ensures e.id == if DELIVERY_ID_HEADER in headers then headers[DELIVERY_ID_HEADER][0] else ""
    ensures forall i :: 0 <= i < |headers| ==> e.headers[i] == Header("", "")
    ensures forall i :: |headers| <= i < |e.headers| ==>
              e.headers[i].key in headers && e.headers[i].firstValue == headers[e.headers[i].key][0]
    ensures forall k :: k in headers ==> exists i :: |headers| <= i < |e.headers| && e.headers[i].key == k
  {
    var deliveryId := PostedId(headers);
    var list := Padding(|headers|);
    ghost var order := [];
    var todo := headers.Keys;
    while todo != {}
      invariant todo <= headers.Keys
      invariant forall k :: k in headers ==> (k in todo) != (k in order)
      invariant forall i :: 0 <= i < |order| ==> order[i] in headers
      invariant forall i, j :: 0 <= i < j < |order| ==> order[i] != order[j]
      invariant list == Padding(|headers|) + Listed(order, headers)
      invariant |todo| + |order| == |headers|
      decreases todo
    {
      var key :| key in todo;
      todo := todo - {key};
      list := list + [Header(key, headers[key][0])];
      order := order + [key];
    }
    e := EventData(deliveryId, list, body);
    assert IsOrderOf(order, headers) && e == FromPost(order, headers, body);
    PostReads(order, headers, body);
  }

  /** What an event built from a POST holds, whatever the order. */
  lemma PostReads(order: seq<string>, headers: HttpHeaders, body: Bytes)
    requires IsOrderOf(order, headers) && ValuesPresent(headers) && |order| == |headers|
    ensures var e := FromPost(order, headers, body);
            && e.body == body && |e.headers| == 2 * |headers|
            && e.id == (if DELIVERY_ID_HEADER in headers then headers[DELIVERY_ID_HEADER][0] else "")
            && (forall i :: 0 <= i < |headers| ==> e.headers[i] == Header("", ""))
            && (forall i :: |headers| <= i < |e.headers| ==>
                  e.headers[i].key in headers && e.headers[i].firstValue == headers[e.headers[i].key][0])
            && (forall k :: k in headers ==> exists i :: |headers| <= i < |e.headers| && e.headers[i].key == k)
  {
    var e := FromPost(order, headers, body);
    forall k | k in headers ensures exists i :: |headers| <= i < |e.headers| && e.headers[i].key == k {
      var i :| 0 <= i < |order| && order[i] == k;
      assert e.headers[|headers| + i].key == k;
    }
  }

  // ---------- Lemmas on header lists ----------

  lemma {:induction false} NonEmptyAppend(a: seq<Header>, b: seq<Header>)
    ensures NonEmpty(a + b) == NonEmpty(a) + NonEmpty(b)
    decreases |b|
  {
    if b == [] {
      assert a + b == a;
    } else {
      NonEmptyAppend(a, b[..|b|-1]);
      assert (a + b)[..|a+b|-1] == a + b[..|b|-1];
    }
  }

  lemma {:induction false} NonEmptyOfPadding(n: nat)
    ensures NonEmpty(Padding(n)) == []
  {
    if n == 0 {
    } else {
      NonEmptyOfPadding(n - 1);
      assert Padding(n)[..n-1] == Padding(n - 1);
    }
  }

  predicate Climbing(pos: seq<nat>) {
    forall k, l :: 0 <= k < l < |pos| ==> pos[k] < pos[l]
  }

  /** `pos` lists exactly the significant positions, in order. */
  predicate SignificantAt(hs: seq<Header>, pos: seq<nat>) {
    && Climbing(pos)
    && (forall k :: 0 <= k < |pos| ==> pos[k] < |hs| && Significant(hs[pos[k]]))
    && (forall i :: 0 <= i < |hs| && Significant(hs[i]) ==> i in pos)
  }

  lemma SignificantSnoc(hs: seq<Header>, pos: seq<nat>)
    requires hs != [] && SignificantAt(hs[..|hs|-1], pos)
    ensures SignificantAt(hs, if Significant(hs[|hs|-1]) then pos + [|hs| - 1] else pos)
  {
    hide Significant;
    var n, front := |hs| - 1, hs[..|hs|-1];
    var all := if Significant(hs[n]) then pos + [n] else pos;
    forall k | 0 <= k < |pos| ensures pos[k] < n && Significant(hs[pos[k]]) && all[k] == pos[k] {
      assert front[pos[k]] == hs[pos[k]];
    }
    forall i | 0 <= i < |hs| && Significant(hs[i]) ensures i in all {
      if i < n {
        assert front[i] == hs[i];
        var k :| 0 <= k < |pos| && pos[k] == i;
        assert all[k] == i;
      } else {
        assert all[|pos|] == n;
      }
    }
  }

  /** The reference reading of `NonEmpty`: the headers at exactly the significant positions,
      in the order of the positions. */
  lemma {:induction false} NonEmptyIsFilter(hs: seq<Header>) returns (pos: seq<nat>)
    ensures SignificantAt(hs, pos) && |pos| == |NonEmpty(hs)|
    ensures forall k :: 0 <= k < |pos| ==> pos[k] < |hs| && NonEmpty(hs)[k] == hs[pos[k]]
  {
    hide NonEmpty, Significant, SignificantAt;
    NonEmptySnoc(hs);
    if hs == [] {
      pos := [];
      NothingSignificant();
    } else {
      var n := |hs| - 1;
      pos := NonEmptyIsFilter(hs[..n]);
      SignificantSnoc(hs, pos);
      if Significant(hs[n]) { pos := pos + [n]; }
    }
  }

  lemma NonEmptySnoc(hs: seq<Header>)
    ensures NonEmpty(hs) ==
            if hs == [] then []
            else if Significant(hs[|hs|-1]) then NonEmpty(hs[..|hs|-1]) + [hs[|hs|-1]] else NonEmpty(hs[..|hs|-1])
  {}

  lemma NothingSignificant()
    ensures SignificantAt([], [])
  {}

  lemma {:induction false} NonEmptyMember(hs: seq<Header>, h: Header)
    ensures h in NonEmpty(hs) <==> h in hs && Significant(h)
  {
    if hs == [] {
    } else {
      var front, last := hs[..|hs|-1], hs[|hs|-1];
      NonEmptyMember(front, h);
      assert hs == front + [last];
    }
  }

  lemma {:induction false} NonEmptyUnchanged(hs: seq<Header>)
    requires forall i :: 0 <= i < |hs| ==> Significant(hs[i])
    ensures NonEmpty(hs) == hs
  {
    if hs == [] {
    } else {
      var front, last := hs[..|hs|-1], hs[|hs|-1];
      NonEmptyUnchanged(front);
      assert hs == front + [last];
    }
  }

  lemma {:induction false} NonEmptyIdempotent(hs: seq<Header>)
    ensures NonEmpty(NonEmpty(hs)) == NonEmpty(hs)
  {
    forall i | 0 <= i < |NonEmpty(hs)| ensures Significant(NonEmpty(hs)[i]) { NonEmptyMember(hs, NonEmpty(hs)[i]); }
    NonEmptyUnchanged(NonEmpty(hs));
  }

  lemma {:induction false} DeliveryIdOfNonEmpty(hs: seq<Header>)
    ensures DeliveryId(NonEmpty(hs)) == DeliveryId(hs)
  {
    if hs == [] {
    } else {
      DeliveryIdOfNonEmpty(hs[..|hs|-1]);
      if Significant(hs[|hs|-1]) {
        assert NonEmpty(hs)[..|NonEmpty(hs)|-1] == NonEmpty(hs[..|hs|-1]);
      } else {
        assert NonEmpty(hs) == NonEmpty(hs[..|hs|-1]);
      }
    }
  }

  // ---------- One hop and many ----------

  /** Main result for one hop: the body, and exactly the significant headers in their
      order; the ID is the one those headers carry. */
  lemma HopIsLossless(e: EventData)
    ensures Hop(e).body == e.body
    ensures Hop(e).headers == NonEmpty(e.headers)
    ensures Hop(e).id == DeliveryId(e.headers)
  {
    var r := Received(Wire(Encode(e)));
    assert r == Padding(|e.headers|) + e.headers;
    NonEmptyAppend(Padding(|e.headers|), e.headers);
    NonEmptyOfPadding(|e.headers|);
    DeliveryIdOfNonEmpty(r);
    DeliveryIdOfNonEmpty(e.headers);
  }

  lemma HopKeepsCoherence(e: EventData)
    ensures Coherent(Hop(e))
    ensures Hop(e).id == e.id <==> Coherent(e)
  {
    HopIsLossless(e);
    DeliveryIdOfNonEmpty(e.headers);
  }

  /** After one hop, further hops change nothing, although every encoding doubles the
      header list it is given. */
  lemma {:induction false} HopsStabilise(e: EventData, k: nat)
    requires k >= 1
    ensures Hops(e, k) == Hop(e)
    ensures |Encode(Hops(e, k)).headers| == 2 * |NonEmpty(e.headers)|
  {
    HopIsLossless(e);
    if k == 1 {
      assert Hops(e, 1) == Hop(Hops(e, 0));
    } else {
      HopsStabilise(e, k - 1);
      HopIsLossless(Hop(e));
      NonEmptyIdempotent(e.headers);
      DeliveryIdOfNonEmpty(e.headers);
    }
  }

  // ---------- From the POST to the relayed request ----------

  lemma {:induction false} DeliveryIdOfListed(order: seq<string>, headers: HttpHeaders)
    requires ValuesPresent(headers) && forall i :: 0 <= i < |order| ==> order[i] in headers
    ensures DeliveryId(Listed(order, headers)) == (if DELIVERY_ID_HEADER in order then PostedId(headers) else "")
  {
    if order == [] {
    } else {
      var front := order[..|order|-1];
      DeliveryIdOfListed(front, headers);
      assert Listed(order, headers)[..|order|-1] == Listed(front, headers);
      assert order == front + [order[|order|-1]];
    }
  }

  /** Whatever the iteration order, the ID taken from the request is the one its cached
      headers carry. */
  lemma PostIsCoherent(order: seq<string>, headers: HttpHeaders, body: Bytes)
    requires IsOrderOf(order, headers) && ValuesPresent(headers)
    ensures Coherent(FromPost(order, headers, body))
  {
    var padding, listed := Padding(|headers|), Listed(order, headers);
    calc {
      DeliveryId(padding + listed);
      { DeliveryIdOfNonEmpty(padding + listed); }
      DeliveryId(NonEmpty(padding + listed));
      {
        NonEmptyAppend(padding, listed);
        NonEmptyOfPadding(|headers|);
        assert NonEmpty(padding + listed) == NonEmpty(listed);
      }
      DeliveryId(NonEmpty(listed));
      { DeliveryIdOfNonEmpty(listed); }
      DeliveryId(listed);
      { DeliveryIdOfListed(order, headers); }
      PostedId(headers);
    }
  }

  /** The part of a request's headers that can be relayed: named, with a first value,
      and that one value only. */
  function Relayable(headers: HttpHeaders): HttpHeaders
    requires ValuesPresent(headers)
  {
    map k | k in headers && k != "" && headers[k][0] != "" :: [headers[k][0]]
  }

  lemma {:induction false} ToHttpValue(hs: seq<Header>, h: Header)
    requires h in hs && forall g :: g in hs && g.key == h.key ==> g == h
    ensures h.key in ToHttp(hs) && ToHttp(hs)[h.key] == [h.firstValue]
  {
    var front, last := hs[..|hs|-1], hs[|hs|-1];
    assert hs == front + [last];
    assert last in hs;
    if last != h {
      assert h in front;
      ToHttpValue(front, h);
    }
  }

  lemma ListedValues(order: seq<string>, headers: HttpHeaders, h: Header)
    requires ValuesPresent(headers) && IsOrderOf(order, headers)
    ensures h in Listed(order, headers) <==> h.key in headers && h.firstValue == headers[h.key][0]
  {
    var listed := Listed(order, headers);
    if h.key in headers && h.firstValue == headers[h.key][0] {
      var i :| 0 <= i < |order| && order[i] == h.key;
      assert listed[i] == h;
    }
  }

  /** The cached headers of a POST, as a hop leaves them. */
  lemma PostedNonEmpty(order: seq<string>, headers: HttpHeaders, body: Bytes)
    requires IsOrderOf(order, headers) && ValuesPresent(headers)
    ensures var hs := NonEmpty(FromPost(order, headers, body).headers);
            forall h :: h in hs <==> h.key in headers && h.firstValue == headers[h.key][0] && Significant(h)
  {
    var padding, listed := Padding(|headers|), Listed(order, headers);
    NonEmptyAppend(padding, listed);
    NonEmptyOfPadding(|headers|);
    forall h
      ensures h in NonEmpty(listed) <==> h.key in headers && h.firstValue == headers[h.key][0] && Significant(h)
    {
      NonEmptyMember(listed, h);
      ListedValues(order, headers, h);
    }
  }

  /** Main result, end to end: for every iteration order and any number of hops between
      processes, the request relayed at the far end carries exactly the relayable
      headers of the original and its body. */
  lemma RelayFidelity(order: seq<string>, headers: HttpHeaders, body: Bytes, k: nat)
    requires IsOrderOf(order, headers) && ValuesPresent(headers) && k >= 1
    ensures var far := Hops(FromPost(order, headers, body), k);
            ToHttp(far.headers) == Relayable(headers) && far.body == body && far.id == PostedId(headers)
  {
    var e := FromPost(order, headers, body);
    HopsStabilise(e, k);
    HopIsLossless(e);
    PostIsCoherent(order, headers, body);
    PostedNonEmpty(order, headers, body);
    HttpOfPosted(Hop(e).headers, headers);
  }

  /** A list of exactly the relayable headers makes the relayable header map. */
  lemma HttpOfPosted(hs: seq<Header>, headers: HttpHeaders)
    requires ValuesPresent(headers)
    requires forall h :: h in hs <==> h.key in headers && h.firstValue == headers[h.key][0] && Significant(h)
    ensures ToHttp(hs) == Relayable(headers)
  {
    var http := Relayable(headers);
    forall name: string
      ensures name in ToHttp(hs) <==> name in http
      ensures name in http ==> ToHttp(hs)[name] == http[name]
    {
      ToHttpKeys(hs, name);
      if name in http {
        var h := Header(name, headers[name][0]);
        assert h in hs;
        ToHttpValue(hs, h);
      }
    }
  }

  /** A process that relays an event it cached straight from a POST (no hop in between)
      sends the padding along: an empty header name, exactly when the request had any
      header at all. */
  lemma DirectRelayHasEmptyName(order: seq<string>, headers: HttpHeaders, body: Bytes)
    requires IsOrderOf(order, headers) && ValuesPresent(headers)
    ensures "" in ToHttp(FromPost(order, headers, body).headers) <==> headers != map[]
  {
    var hs := FromPost(order, headers, body).headers;
    ToHttpKeys(hs, "");
    if headers == map[] {
      assert hs == [];
    } else {
      assert hs[0] == Header("", "");
      assert hs[0] in hs;
    }
  }

  // ---------- Signature verdicts ----------

  const SIGNATURE_HEADER := "X-Hub-Signature-256"

  /** `ValidateMessage`: HMAC-SHA256 in hexadecimal, with its prefix, is the parameter `mac`. */
  predicate ValidMessage(mac: (string, Bytes) -> string, token: string, givenSha: string, payload: Bytes) {
    givenSha != "" && mac(token, payload) == givenSha
  }

  /** The digest `HandleGitHubPost` takes from a request. */
  function PostedDigest(headers: HttpHeaders): string {
    if SIGNATURE_HEADER in headers && headers[SIGNATURE_HEADER] != [] && headers[SIGNATURE_HEADER][0] != ""
    then headers[SIGNATURE_HEADER][0] else ""
  }

  /** The digest `ValidateEvent` takes from a message: the last header of that name. */
  function MessageDigest(hs: seq<WireHeader>): string {
    if hs == [] then ""
    else
      var h := hs[|hs|-1];
      if h.WireHeader? && h.name == SIGNATURE_HEADER then h.values else MessageDigest(hs[..|hs|-1])
  }

  /** The handler's decision on a request: without a configured token it accepts any. */
  predicate SignatureOk(mac: (string, Bytes) -> string, token: string, headers: HttpHeaders, body: Bytes) {
    token == "" || ValidMessage(mac, token, PostedDigest(headers), body)
  }

  /** The verdict of `ValidateEvent` on a message: without a digest it finds no fault. */
  predicate EventOk(mac: (string, Bytes) -> string, token: string, m: Message) {
    MessageDigest(m.headers) == "" || ValidMessage(mac, token, MessageDigest(m.headers), m.body)
  }

  /** `ValidateEvent` up to its verdict, which the caller then ignores: it always returns true. */
  method ValidateEvent(mac: (string, Bytes) -> string, token: string, m: Message)
    returns (digest: string, verdict: bool, result: bool)
    requires NoNil(m)
    ensures digest == MessageDigest(m.headers)
    ensures verdict == EventOk(mac, token, m)
    ensures verdict <==> digest == "" || mac(token, m.body) == digest
    ensures (forall i :: 0 <= i < |m.headers| ==> m.headers[i].name != SIGNATURE_HEADER) ==> digest == ""
    ensures forall i :: 0 <= i < |m.headers| && m.headers[i].name == SIGNATURE_HEADER ==>
              digest == m.headers[i].values || exists j :: i < j < |m.headers| && m.headers[j].name == SIGNATURE_HEADER
    ensures result
  {
    digest := "";
    for i := 0 to |m.headers|
      invariant digest == MessageDigest(m.headers[..i])
      invariant (forall h :: 0 <= h < i ==> m.headers[h].name != SIGNATURE_HEADER) ==> digest == ""
      invariant forall h :: 0 <= h < i && m.headers[h].name == SIGNATURE_HEADER ==>
                  digest == m.headers[h].values || exists j :: h < j < i && m.headers[j].name == SIGNATURE_HEADER
    {
      assert m.headers[..i+1][..i] == m.headers[..i];
      if m.headers[i].name == SIGNATURE_HEADER {
        digest := m.headers[i].values;
      }
    }
    assert m.headers[..|m.headers|] == m.headers;
    verdict := digest == "" || ValidMessage(mac, token, digest, m.body);
    result := true;
  }

  lemma {:induction false} MessageDigestAppend(a: seq<WireHeader>, b: seq<WireHeader>)
    requires forall i :: 0 <= i < |a| ==> a[i] == WireHeader("", "")
    ensures MessageDigest(a + b) == MessageDigest(b)
    decreases |a| + |b|
  {
    if b != [] {
      MessageDigestAppend(a, b[..|b|-1]);
      assert (a + b)[..|a+b|-1] == a + b[..|b|-1];
    } else if a != [] {
      assert (a + b)[..|a+b|-1] == a[..|a|-1] + b;
      MessageDigestAppend(a[..|a|-1], b);
    }
  }

  function OnWires(hs: seq<Header>): seq<WireHeader> {
    seq(|hs|, i requires 0 <= i < |hs| => OnWire(hs[i]))
  }

  lemma {:induction false} DigestOfListed(order: seq<string>, headers: HttpHeaders)
    requires ValuesPresent(headers) && forall i :: 0 <= i < |order| ==> order[i] in headers
    ensures MessageDigest(OnWires(Listed(order, headers))) ==
            (if SIGNATURE_HEADER in order then PostedDigest(headers) else "")
  {
    if order == [] {
    } else {
      var front := order[..|order|-1];
      DigestOfListed(front, headers);
      assert OnWires(Listed(order, headers))[..|order|-1] == OnWires(Listed(front, headers));
      assert order == front + [order[|order|-1]];
    }
  }

  lemma DigestOnWire(order: seq<string>, headers: HttpHeaders, body: Bytes)
    requires IsOrderOf(order, headers) && ValuesPresent(headers)
    ensures MessageDigest(Wire(Encode(FromPost(order, headers, body))).headers) == PostedDigest(headers)
  {
    var e := FromPost(order, headers, body);
    var empty := seq(|e.headers| + |headers|, _ => WireHeader("", ""));
    assert Wire(Encode(e)).headers == empty + OnWires(Listed(order, headers));
    MessageDigestAppend(empty, OnWires(Listed(order, headers)));
    DigestOfListed(order, headers);
  }

  /** The two ends compared, for one token and the digest `d` the request carries, if any.
      With a token configured the handler accepts exactly the requests whose digest is the
      code of the body, and `ValidateEvent` finds the streamed event valid in these cases
      and when there is no digest. Without a token the handler accepts everything and the
      event may still be found invalid. */
  lemma VerdictsAtBothEnds(mac: (string, Bytes) -> string, token: string, order: seq<string>, headers: HttpHeaders,
                           body: Bytes)
    requires IsOrderOf(order, headers) && ValuesPresent(headers)
    ensures var event := EventOk(mac, token, Wire(Encode(FromPost(order, headers, body))));
            var d := if SIGNATURE_HEADER in headers then headers[SIGNATURE_HEADER][0] else "";
            && (event <==> d == "" || mac(token, body) == d)
            && (SignatureOk(mac, token, headers, body) <==> token == "" || (d != "" && mac(token, body) == d))
            && (token != "" ==> (SignatureOk(mac, token, headers, body) <==> event && d != ""))
  {
    DigestOnWire(order, headers, body);
  }
}

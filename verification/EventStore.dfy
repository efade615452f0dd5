/** The in-memory event store at the level of Go slices: backing arrays, lengths, spare
    capacity, and the slices that readers were handed and still hold. */
module EventStore {
  import opened Events
  import opened CacheSpec

  /** A Go slice of event pointers that starts at its array's first element. */
  datatype Slice = NilSlice | Slice(data: array<CachedEvent?>, len: nat)

  /** A slice a reader was handed, with the pointers it showed at that time. */
  datatype Snapshot = Snapshot(slice: Slice, seen: seq<CachedEvent>)

  /** The slice is in bounds and shows these pointers. */
  ghost predicate Shows(s: Slice, ps: seq<CachedEvent>)
    reads if s.Slice? then {s.data} else {}
  {
    if s.Slice? then s.len <= s.data.Length && s.data[..s.len] == ps else ps == []
  }

  /** The cells a list of pointers stands for, read now. */
  ghost function Cells(ps: seq<CachedEvent>): (cs: seq<Cell<CachedEvent>>)
    reads ps
    ensures |cs| == |ps|
  {
    seq(|ps|, i requires 0 <= i < |ps| reads ps => CellOf(ps[i]))
  }

  ghost function CellOf(e: CachedEvent): Cell<CachedEvent>
    reads e
  {
    Cell(e, e.data.id, e.isRelayed, e.timeRelayed)
  }

  ghost predicate DistinctIds(ps: seq<CachedEvent>) {
    forall i, j :: 0 <= i < j < |ps| ==> ps[i].data.id != ps[j].data.id
  }

  ghost predicate HoldsId(ps: seq<CachedEvent>, id: string) {
    exists i :: 0 <= i < |ps| && ps[i].data.id == id
  }

  /** The pointers with other IDs among the first `n`, in order. */
  ghost function OthersUpTo(ps: seq<CachedEvent>, id: string, n: nat): seq<CachedEvent>
    requires n <= |ps|
  {
    if n == 0 then []
    else OthersUpTo(ps, id, n - 1) + (if ps[n-1].data.id != id then [ps[n-1]] else [])
  }

  ghost function Others(ps: seq<CachedEvent>, id: string): seq<CachedEvent> {
    OthersUpTo(ps, id, |ps|)
  }

  lemma {:induction false} OthersKeepDistinct(ps: seq<CachedEvent>, id: string, n: nat)
    requires DistinctIds(ps) && n <= |ps|
    ensures DistinctIds(OthersUpTo(ps, id, n))
    ensures forall k :: 0 <= k < |OthersUpTo(ps, id, n)| ==> exists i :: 0 <= i < n && OthersUpTo(ps, id, n)[k] == ps[i]
  {
    if n > 0 {
      OthersKeepDistinct(ps, id, n - 1);
      var front, all := OthersUpTo(ps, id, n - 1), OthersUpTo(ps, id, n);
      forall k | 0 <= k < |all| ensures exists i :: 0 <= i < n && all[k] == ps[i] {
        if k < |front| {
          var i :| 0 <= i < n - 1 && front[k] == ps[i];
          assert all[k] == ps[i];
        } else {
          assert all[k] == ps[n-1];
        }
      }
    } else {
      assert OthersUpTo(ps, id, n) == [];
    }
  }

  lemma OthersSnoc(ps: seq<CachedEvent>, id: string, n: nat)
    requires n <= |ps|
    ensures OthersUpTo(ps, id, n) ==
            if n == 0 then []
            else if ps[n-1].data.id != id then OthersUpTo(ps, id, n - 1) + [ps[n-1]] else OthersUpTo(ps, id, n - 1)
  {}

  /** The reference reading of `Others`: the pointers at exactly the positions of other IDs,
      in the order of the positions. */
  lemma {:induction false} OthersIsFilter(ps: seq<CachedEvent>, id: string, n: nat) returns (pos: seq<nat>)
    requires n <= |ps|
    ensures |pos| == |OthersUpTo(ps, id, n)| && Ascending(pos)
    ensures forall k :: 0 <= k < |pos| ==>
              pos[k] < n && ps[pos[k]].data.id != id && OthersUpTo(ps, id, n)[k] == ps[pos[k]]
    ensures forall i :: 0 <= i < n && ps[i].data.id != id ==> i in pos
  {
    hide OthersUpTo;
    OthersSnoc(ps, id, n);
    if n == 0 {
      pos := [];
    } else {
      var front := OthersIsFilter(ps, id, n - 1);
      pos := front;
      if ps[n-1].data.id != id {
        pos := front + [n - 1];
        AscendingSnoc(front, n - 1);
        forall i | 0 <= i < n && ps[i].data.id != id ensures i in pos {
          assert i < n - 1 ==> i in front;
        }
      }
    }
  }

  lemma AscendingSnoc(pos: seq<nat>, n: nat)
    requires Ascending(pos) && forall k :: 0 <= k < |pos| ==> pos[k] < n
    ensures Ascending(pos + [n])
  {}

  lemma DistinctAt(ps: seq<CachedEvent>, i: nat, j: nat)
    requires DistinctIds(ps) && i < |ps| && j < |ps|
    ensures ps[i].data.id == ps[j].data.id <==> i == j
  {}

  lemma {:induction false} OthersAt(ps: seq<CachedEvent>, k: nat, n: nat)
    requires DistinctIds(ps) && k < |ps| && n <= |ps|
    ensures OthersUpTo(ps, ps[k].data.id, n) == if n <= k then ps[..n] else ps[..k] + ps[k+1..n]
  {
    hide OthersUpTo, DistinctIds;
    OthersSnoc(ps, ps[k].data.id, n);
    if n == 0 {
    } else {
      OthersAt(ps, k, n - 1);
      assert ps[n-1].data.id == ps[k].data.id <==> n - 1 == k by { DistinctAt(ps, n - 1, k); }
      assert n <= k ==> ps[..n] == ps[..n-1] + [ps[n-1]];
      assert n > k + 1 ==> ps[k+1..n] == ps[k+1..n-1] + [ps[n-1]];
      assert n == k + 1 ==> ps[..k] + ps[k+1..n] == ps[..k];
    }
  }

  /** Two states of the cache agree on every other repository. */
  ghost predicate SameElsewhere(m: map<string, seq<CachedEvent>>, n: map<string, seq<CachedEvent>>, r: string) {
    forall q :: q != r ==> (q in m <==> q in n) && (q in m && q in n ==> m[q] == n[q])
  }

  lemma SameElsewhereTransitive(m: map<string, seq<CachedEvent>>, n: map<string, seq<CachedEvent>>,
                                o: map<string, seq<CachedEvent>>, r: string)
    ensures SameElsewhere(m, m, r)
    ensures SameElsewhere(m, n, r) && SameElsewhere(n, o, r) ==> SameElsewhere(m, o, r)
  {}

  /** Go's growth policy for a full slice: some larger capacity. */
  method GrownCapacity(n: nat) returns (c: nat)
    ensures c > n
  {
    c := if n < 256 then 2 * n + 1 else n + n / 4 + 192;
  }

  /** Go's `append` of one pointer: in place when there is spare capacity, otherwise into
      a larger array. */
  method Append(s: Slice, e: CachedEvent) returns (r: Slice)
    requires s.Slice? ==> s.len <= s.data.Length
    modifies if s.Slice? && s.len < s.data.Length then {s.data} else {}
    ensures r.Slice? && r.len == Len(s) + 1 <= r.data.Length && r.data[r.len - 1] == e
    ensures s.Slice? && s.len < s.data.Length ==> r.data == s.data
    ensures !(s.Slice? && s.len < s.data.Length) ==> fresh(r.data)
    ensures forall i :: 0 <= i < Len(s) ==> r.data[i] == old(s.data[i])
    ensures s.Slice? ==> s.data[..s.len] == old(s.data[..s.len])
  {
    if s.Slice? && s.len < s.data.Length {
      s.data[s.len] := e;
      r := Slice(s.data, s.len + 1);
    } else {
      var n := Len(s);
      var capacity := GrownCapacity(n);
      var data := new CachedEvent?[capacity](_ => null);
      for i := 0 to n
        invariant forall j :: 0 <= j < i ==> data[j] == s.data[j]
      {
        data[i] := s.data[i];
      }
      data[n] := e;
      r := Slice(data, n + 1);
    }
  }

  function Len(s: Slice): nat {
    if s.Slice? then s.len else 0
  }

  /** The search of `Store`. */
  method HasIdIn(list: Slice, ghost ps: seq<CachedEvent>, id: string) returns (found: bool)
    requires list.Slice? && Shows(list, ps)
    ensures found <==> HoldsId(ps, id)
  {
    for i := 0 to list.len
      invariant forall j :: 0 <= j < i ==> ps[j].data.id != id
    {
      assert list.data[i] == ps[i];
      if list.data[i].data.id == id {
        return true;
      }
    }
    return false;
  }

  /** The loop of `Remove`: a slice built from nil, of the pointers with other IDs. */
  method CopyOthers(list: Slice, ghost ps: seq<CachedEvent>, id: string) returns (updated: Slice)
    requires list.Slice? && Shows(list, ps)
    ensures (updated.Slice? ==> fresh(updated.data)) && Shows(updated, Others(ps, id))
  {
    updated := NilSlice;
    for i := 0 to list.len
      invariant (updated.Slice? ==> fresh(updated.data)) && Shows(updated, OthersUpTo(ps, id, i))
    {
      assert list.data[i] == ps[i];
      if list.data[i].data.id != id {
        ghost var sofar := OthersUpTo(ps, id, i);
        updated := Append(updated, list.data[i]);
        assert updated.data[..updated.len] == sofar + [ps[i]];
      }
    }
  }

  /** The slices of the store show its contents, no two of them in the same array. */
  ghost predicate Consistent(events: map<string, Slice>, contents: map<string, seq<CachedEvent>>,
                             owner: map<array<CachedEvent?>, string>)
    reads owner.Keys
  {
    && events.Keys == contents.Keys
    && (forall r :: r in events && events[r].Slice? ==> events[r].data in owner && owner[events[r].data] == r)
    && (forall r :: r in events ==> (events[r].Slice? ==> events[r].data in owner) && Shows(events[r], contents[r]))
    && (forall r :: r in contents ==> DistinctIds(contents[r]))
  }

  ghost predicate AllStable(events: map<string, Slice>, owner: map<array<CachedEvent?>, string>, handed: seq<Snapshot>)
    reads owner.Keys
  {
    forall k :: 0 <= k < |handed| ==> Stable(events, owner, handed[k])
  }

  /** A handed-out slice shows what it showed; and where its array is still the live one,
      it is no longer than the live slice, so what is written past the live length is out
      of its sight. */
  ghost predicate Stable(events: map<string, Slice>, owner: map<array<CachedEvent?>, string>, h: Snapshot)
    reads owner.Keys
  {
    && h.slice.Slice? && h.slice.data in owner && Shows(h.slice, h.seen)
    && var r := owner[h.slice.data];
       r in events && events[r].Slice? && events[r].data == h.slice.data ==> h.slice.len <= events[r].len
  }

  ghost function WithOwner(owner: map<array<CachedEvent?>, string>, s: Slice, r: string)
    : map<array<CachedEvent?>, string>
  {
    if s.Slice? then owner[s.data := r] else owner
  }

  /** Putting a slice in the map keeps the store consistent when it lives either in a new
      array or, no shorter than before, in the repository's live one. */
  lemma ReplaceConsistent(events: map<string, Slice>, contents: map<string, seq<CachedEvent>>,
                          owner: map<array<CachedEvent?>, string>,
                          r: string, s: Slice, ps: seq<CachedEvent>)
    requires Consistent(events, contents, owner) && Shows(s, ps) && DistinctIds(ps)
    requires s.Slice? && s.data in owner ==> owner[s.data] == r
    ensures Consistent(events[r := s], contents[r := ps], WithOwner(owner, s, r))
  {}

  lemma ReplaceStable(events: map<string, Slice>, owner: map<array<CachedEvent?>, string>, handed: seq<Snapshot>,
                      r: string, s: Slice)
    requires AllStable(events, owner, handed)
    requires s.Slice? && s.data in owner ==>
               r in events && events[r].Slice? && events[r].data == s.data && events[r].len <= s.len
                   && owner[s.data] == r
    ensures AllStable(events[r := s], WithOwner(owner, s, r), handed)
  {}

  lemma HandOutConsistent(events: map<string, Slice>, contents: map<string, seq<CachedEvent>>,
                          owner: map<array<CachedEvent?>, string>,
                          handed: seq<Snapshot>, r: string, s: Slice, ps: seq<CachedEvent>)
    requires Consistent(events, contents, owner) && AllStable(events, owner, handed)
    requires s.Slice? && Shows(s, ps)
    requires if s.data in owner then r in events && events[r] == s else s.len == 0
    ensures Consistent(events, contents, owner[s.data := r])
              && AllStable(events, owner[s.data := r], handed + [Snapshot(s, ps)])
  {
    if s.data !in owner {
      assert forall q :: q in events && events[q].Slice? ==> events[q].data != s.data;
    }
  }

  class InMemoryStore {
    var events: map<string, Slice>

    /** The pointers cached for each repository; `Valid` ties them to the slices. */
    ghost var contents: map<string, seq<CachedEvent>>
    /** Every slice handed out so far (history only). */
    ghost var handed: seq<Snapshot>
    /** Every backing array the store or a reader can reach. */
    ghost var arrays: set<array<CachedEvent?>>
    /** The repository each of them was made for. */
    ghost var owner: map<array<CachedEvent?>, string>

    ghost function Cached(r: string): seq<CachedEvent>
      reads this
    {
      if r in contents then contents[r] else []
    }

    ghost predicate Valid()
      reads this, arrays
    {
      arrays == owner.Keys && Consistent(events, contents, owner) && AllStable(events, owner, handed)
    }

    lemma CachedIdsDiffer(r: string)
      requires Valid()
      ensures DistinctIds(Cached(r))
    {}

    constructor ()
      ensures Valid() && handed == [] && arrays == {} && contents == map[]
    {
      events, contents := map[], map[];
      handed, arrays, owner := [], {}, map[];
    }

    method Store(r: string, e: CachedEvent) returns (stored: bool)
      requires Valid()
      modifies this, arrays, e`isRelayed
      ensures Valid() && fresh(arrays - old(arrays)) && handed == old(handed)
      ensures stored <==> !HoldsId(old(Cached(r)), e.data.id)
      ensures stored ==> contents == old(contents)[r := old(Cached(r)) + [e]] && !e.isRelayed
      ensures !stored ==> contents == old(contents) && e.isRelayed == old(e.isRelayed)
    {
      hide Stable, AllStable, WithOwner;
      ghost var before := Cached(r);
      var list := if r in events then events[r] else NilSlice;
      if list.NilSlice? {
        var data := new CachedEvent?[0];
        list := Slice(data, 0);
      }
      var known := HasIdIn(list, before, e.data.id);
      if known {
        return false;
      }
      e.isRelayed := false;
      var longer := AppendLive(r, list, e);
      Replace(r, longer, before + [e]);
      return true;
    }

    /** The append of `Store`: nothing the store or a reader can see changes. */
    method AppendLive(r: string, list: Slice, e: CachedEvent) returns (longer: Slice)
      requires Valid() && list.Slice? && Shows(list, Cached(r))
      requires list.data in arrays ==> r in events && events[r] == list
      requires list.data !in arrays ==> list.len == list.data.Length == 0
      modifies arrays
      ensures Valid() && longer.Slice? && Shows(longer, old(Cached(r)) + [e])
      ensures longer.data in arrays ==> longer.data == list.data && longer.len == list.len + 1
      ensures longer.data !in arrays ==> fresh(longer.data)
    {
      ghost var before := Cached(r);
      longer := Append(list, e);
      assert longer.data[..longer.len] == before + [e];
      forall h | h in handed ensures Shows(h.slice, h.seen) {
        if h.slice.data == list.data {
          assert h.slice.data[..h.slice.len] == list.data[..list.len][..h.slice.len];
        }
      }
    }

    /** The map update that ends `Store` and `Remove`: the new slice shows `ps`, and lives
        either in a new array or, no shorter than before, in the live one. */
    method Replace(r: string, s: Slice, ghost ps: seq<CachedEvent>)
      requires Valid() && DistinctIds(ps)
      requires Shows(s, ps)
      requires s.Slice? && s.data in arrays ==>
                 r in events && events[r].Slice? && events[r].data == s.data && events[r].len <= s.len
      modifies this`events, this`contents, this`arrays, this`owner
      ensures Valid() && arrays == old(arrays) + (if s.Slice? then {s.data} else {})
      ensures contents == old(contents)[r := ps]
    {
      hide Stable, DistinctIds;
      ReplaceConsistent(events, contents, owner, r, s, ps);
      ReplaceStable(events, owner, handed, r, s);
      hide Consistent, AllStable;
      events := events[r := s];
      contents := contents[r := ps];
      owner := WithOwner(owner, s, r);
      arrays := owner.Keys;
    }

    method Remove(r: string, id: string) returns (known: bool)
      requires Valid()
      modifies this
      ensures Valid() && fresh(arrays - old(arrays)) && handed == old(handed)
      ensures contents == if r in old(contents) then old(contents)[r := Others(old(Cached(r)), id)] else old(contents)
      ensures known <==> r in old(events) && old(events[r]).Slice?
    {
      if r !in events || events[r].NilSlice? {
        assert r in contents ==> contents[r := []] == contents;
        return false;
      }
      var updated := CopyOthers(events[r], Cached(r), id);
      OthersKeepDistinct(Cached(r), id, |Cached(r)|);
      Replace(r, updated, Others(Cached(r), id));
      return true;
    }

    function CountEventsForRepository(r: string): (n: nat)
      reads this, arrays
      requires Valid()
      ensures n == |Cached(r)|
    {
      if r in events then Len(events[r]) else 0
    }

    method RetrieveEventsForRepository(r: string) returns (s: Slice)
      requires Valid()
      modifies this`handed, this`arrays, this`owner
      ensures Valid() && fresh(arrays - old(arrays))
      ensures handed == old(handed) + [Snapshot(s, Cached(r))]
      ensures s.Slice? && s.data in arrays && Shows(s, Cached(r))
    {
      var data := new CachedEvent?[0];
      s := Slice(data, 0);
      if CountEventsForRepository(r) > 0 {
        s := events[r];
      }
      HandOutConsistent(events, contents, owner, handed, r, s, Cached(r));
      hide Consistent, AllStable;
      handed := handed + [Snapshot(s, Cached(r))];
      owner := owner[s.data := r];
      arrays := owner.Keys;
    }
  }

  datatype Operation =
    | StoreOp(repo: string, event: CachedEvent)
    | RemoveOp(repo: string, id: string)
    | RetrieveOp(repo: string)

  /** The events a list of operations stores. */
  ghost function EventsOf(ops: seq<Operation>): set<CachedEvent> {
    set i | 0 <= i < |ops| && ops[i].StoreOp? :: ops[i].event
  }

  /** Whatever is stored, removed or retrieved afterwards, in any repository, a slice that
      was handed out keeps its length and shows the same pointers. */
  method SnapshotOutlives(store: InMemoryStore, r: string, ops: seq<Operation>) returns (s: Slice)
    requires store.Valid()
    modifies store, store.arrays, EventsOf(ops)
    ensures s.Slice? && Shows(s, old(store.Cached(r)))
  {
    s := store.RetrieveEventsForRepository(r);
    ghost var k := |store.handed| - 1;
    for i := 0 to |ops|
      invariant store.Valid() && fresh(store.arrays - old(store.arrays))
      invariant k < |store.handed| && store.handed[k] == Snapshot(s, old(store.Cached(r)))
    {
      match ops[i]
      case StoreOp(repo, event) =>
        assert event in EventsOf(ops);
        var _ := store.Store(repo, event);
      case RemoveOp(repo, id) =>
        var _ := store.Remove(repo, id);
      case RetrieveOp(repo) =>
        var _ := store.RetrieveEventsForRepository(repo);
    }
  }
}

/**
 * The two exported queries of services/radioService.ts: stations by tag and
 * stations by UUID (the favourites list), each behind the expiring cache and
 * the mirror race.
 */
module StationQueries {
  import opened Wrappers
  import opened JsText
  import opened RadioTypes
  import opened VoteSort
  import opened StationFilter
  import opened StationCache
  import opened MirrorRace
  import opened UuidOrder

  /** The fixed query of a tag search: up to 80 records, most voted first, broken ones hidden. */
  const TAG_QUERY_PARAMS: string := "limit=80&order=votes&reverse=true&hidebroken=true"
  /** At most this many UUIDs are looked up. */
  const MAX_UUID_LOOKUPS: nat := 15

  /** `` `tag_v6_${tag}_l${limit}` ``. */
  function TagCacheKey(tag: string, limit: int): string {
    "tag_v6_" + tag + "_l" + IntToString(limit)
  }

  /** `` `uuids_v6_${sorted.join('_')}` ``. */
  function UuidsCacheKey(sortedUuids: seq<string>): string {
    "uuids_v6_" + Join(sortedUuids, "_")
  }

  /** `s.slice(0, end)`: a negative `end` counts from the back. */
  function SliceTo<T>(s: seq<T>, end: int): seq<T> {
    var stop := if end >= 0 then Min(end, |s|) else if |s| + end > 0 then |s| + end else 0;
    s[..stop]
  }

  /** `results.flat()`: array bodies are spliced in, any other body stays one element. */
  function Flat(bodies: seq<Json>): seq<Json> {
    if bodies == [] then []
    else
      var last := bodies[|bodies| - 1];
      Flat(bodies[..|bodies| - 1]) + (if last.JArray? then last.items else [last])
  }

  /** `Promise.all` over the lookups: every body, in lookup order, or nothing when any lookup fails. */
  function AllBodies(lookups: seq<seq<Settlement>>): Option<seq<Json>> {
    if lookups == [] then Some([])
    else
      var earlier := AllBodies(lookups[..|lookups| - 1]);
      var last := MirrorResult(lookups[|lookups| - 1]);
      if earlier.Some? && last.Success? then Some(earlier.value + [last.value]) else None
  }

  /** What `fetchStationsByTag(tag, limit)` resolves to. */
  function TagQueryResult(items: map<string, StoredItem>, tag: string, limit: int,
                          settlements: seq<Settlement>, readTime: int): seq<Station> {
    var cached := CachedValue(items, TagCacheKey(tag, limit), readTime);
    if cached.Some? then cached.value
    else match MirrorResult(settlements)
      case Success(data) => SliceTo(Normalize(data), limit)
      case Failure(_) => []
  }

  /** The storage after `fetchStationsByTag(tag, limit)`. */
  function TagQueryStorage(items: map<string, StoredItem>, tag: string, limit: int, settlements: seq<Settlement>,
                           readTime: int, writeTime: int, writeSucceeds: bool): map<string, StoredItem> {
    var key := TagCacheKey(tag, limit);
    var afterRead := StorageAfterRead(items, key, readTime);
    if CachedValue(items, key, readTime).Some? then afterRead
    else match MirrorResult(settlements)
      case Success(data) => StorageAfterWrite(afterRead, key, SliceTo(Normalize(data), limit), writeTime, writeSucceeds)
      case Failure(_) => afterRead
  }

  /**
   * `fetchStationsByTag(tag, limit)`: the cache is read at `readTime`; on a
   * miss the tag is raced across `mirrors`, whose requests settle as
   * `settlements`, and the filtered, truncated list is cached at `writeTime`.
   */
  method FetchStationsByTag(storage: LocalStorage, mirrors: seq<string>, tag: string, limit: int,
                            settlements: seq<Settlement>, readTime: int, writeTime: int, writeSucceeds: bool)
    returns (r: seq<Station>)
    requires SettlesEachOnce(MirrorRequests(mirrors, "bytag/" + tag, TAG_QUERY_PARAMS), settlements)
    modifies storage
    ensures r == TagQueryResult(old(storage.items), tag, limit, settlements, readTime)
    ensures storage.items == TagQueryStorage(old(storage.items), tag, limit, settlements, readTime, writeTime, writeSucceeds)
  {
    var cacheKey := "tag_v6_" + tag + "_l" + IntToString(limit);
    var cachedData := GetFromCache(storage, cacheKey, readTime);
    if cachedData.Some? {
      return cachedData.value;
    }
    var urlParams := "limit=80&order=votes&reverse=true&hidebroken=true";
    var data := FetchAcrossMirrorsFast(mirrors, "bytag/" + tag, urlParams, settlements);
    if data.Failure? {
      return [];
    }
    var filtered := FilterStations(data.value);
    r := SliceTo(filtered, limit);
    SetToCache(storage, cacheKey, r, writeTime, writeSucceeds);
  }

  /** What `fetchStationsByUuids(uuids)` resolves to. */
  function UuidsQueryResult(items: map<string, StoredItem>, uuids: seq<string>,
                            lookups: seq<seq<Settlement>>, readTime: int): seq<Station> {
    if uuids == [] then []
    else
      var cached := CachedValue(items, UuidsCacheKey(SortStrings(uuids)), readTime);
      if cached.Some? then cached.value
      else match AllBodies(lookups)
        case Some(bodies) => Normalize(JArray(Flat(bodies)))
        case None => []
  }

  /** The storage after `fetchStationsByUuids(uuids)`. */
  function UuidsQueryStorage(items: map<string, StoredItem>, uuids: seq<string>, lookups: seq<seq<Settlement>>,
                             readTime: int, writeTime: int, writeSucceeds: bool): map<string, StoredItem> {
    if uuids == [] then items
    else
      var key := UuidsCacheKey(SortStrings(uuids));
      var afterRead := StorageAfterRead(items, key, readTime);
      if CachedValue(items, key, readTime).Some? then afterRead
      else match AllBodies(lookups)
        case Some(bodies) => StorageAfterWrite(afterRead, key, Normalize(JArray(Flat(bodies))), writeTime, writeSucceeds)
        case None => afterRead
  }

  /**
   * `Promise.all(toFetch.map(...))`: the i-th sorted UUID is raced across
   * `mirrors` as `lookups[i]`; the bodies are collected in order, and any
   * failed lookup fails the whole.
   */
  method FetchAllLookups(mirrors: seq<string>, sorted: seq<string>, lookups: seq<seq<Settlement>>)
    returns (results: seq<Json>, failed: bool)
    requires |lookups| <= |sorted|
    requires forall i :: 0 <= i < |lookups| ==>
      SettlesEachOnce(MirrorRequests(mirrors, "byuuid/" + sorted[i], ""), lookups[i])
    ensures failed <==> AllBodies(lookups).None?
    ensures !failed ==> AllBodies(lookups) == Some(results)
  {
    results := [];
    failed := false;
    for i := 0 to |lookups|
      invariant failed <==> AllBodies(lookups[..i]).None?
      invariant !failed ==> AllBodies(lookups[..i]) == Some(results)
    {
      assert lookups[..i + 1][..i] == lookups[..i];
      var body := FetchAcrossMirrorsFast(mirrors, "byuuid/" + sorted[i], "", lookups[i]);
      if body.Failure? {
        failed := true;
      } else if !failed {
        results := results + [body.value];
      }
    }
    assert lookups[..|lookups|] == lookups;
  }

  /**
   * `fetchStationsByUuids(uuids)`: the array is sorted in place and names
   * the cache entry; on a miss each of the first 15 sorted UUIDs is raced
   * across `mirrors` (`lookups[i]` settles the requests for the i-th), and
   * the flattened, filtered bodies are cached at `writeTime`.
   */
  method FetchStationsByUuids(storage: LocalStorage, mirrors: seq<string>, uuids: array<string>,
                              lookups: seq<seq<Settlement>>, readTime: int, writeTime: int, writeSucceeds: bool)
    returns (r: seq<Station>)
    requires |lookups| == Min(MAX_UUID_LOOKUPS, uuids.Length)
    requires forall i :: 0 <= i < |lookups| ==>
      SettlesEachOnce(MirrorRequests(mirrors, "byuuid/" + SortStrings(uuids[..])[i], ""), lookups[i])
    modifies storage, uuids
    ensures uuids[..] == SortStrings(old(uuids[..]))
    ensures r == UuidsQueryResult(old(storage.items), old(uuids[..]), lookups, readTime)
    ensures storage.items == UuidsQueryStorage(old(storage.items), old(uuids[..]), lookups, readTime, writeTime, writeSucceeds)
  {
    if uuids.Length == 0 {
      return [];
    }
    SortInPlace(uuids);
    var sorted := uuids[..];
    var cacheKey := "uuids_v6_" + Join(sorted, "_");
    var cachedData := GetFromCache(storage, cacheKey, readTime);
    if cachedData.Some? {
      return cachedData.value;
    }
    var results, failed := FetchAllLookups(mirrors, sorted, lookups);
    if failed {
      return [];
    }
    r := FilterStations(JArray(Flat(results)));
    SetToCache(storage, cacheKey, r, writeTime, writeSucceeds);
  }

  /** A slice keeps a prefix: its records, their order and their distinct names. */
  lemma SliceToPrefix(s: seq<Station>, end: int)
    ensures |SliceTo(s, end)| <= |s| && (end >= 0 ==> |SliceTo(s, end)| <= end)
    ensures forall x | x in SliceTo(s, end) :: x in s
    ensures SortedByVotes(s) ==> SortedByVotes(SliceTo(s, end))
    ensures DistinctNames(s) ==> DistinctNames(SliceTo(s, end))
  {
    var r := SliceTo(s, end);
    assert forall i | 0 <= i < |r| :: r[i] == s[i];
  }

  /**
   * On a cache miss with a mirror answering, the tag query returns at most
   * `limit` admitted records from the answer, most voted first, one per name;
   * and once cached, a second query within the TTL is served that same list.
   */
  lemma TagQueryOnMiss(items: map<string, StoredItem>, tag: string, limit: int, settlements: seq<Settlement>,
                       readTime: int, writeTime: int, laterTime: int)
    requires CachedValue(items, TagCacheKey(tag, limit), readTime).None?
    requires MirrorResult(settlements).Success?
    ensures var r := TagQueryResult(items, tag, limit, settlements, readTime);
      var data := MirrorResult(settlements).value;
      SortedByVotes(r) && DistinctNames(r) && (limit >= 0 ==> |r| <= limit) &&
      forall x | x in r :: data.JArray? && JStation(x) in data.items && Admitted(JStation(x))
    ensures laterTime - writeTime < CACHE_TTL_MS ==>
      var stored := TagQueryStorage(items, tag, limit, settlements, readTime, writeTime, true);
      TagQueryResult(stored, tag, limit, settlements, laterTime) == TagQueryResult(items, tag, limit, settlements, readTime)
  {
    var data := MirrorResult(settlements).value;
    FilterKeepsAdmittedRecords(data);
    FilterNamesUnique(data);
    FilterOrdersByVotes(data);
    SliceToPrefix(Normalize(data), limit);
    if laterTime - writeTime < CACHE_TTL_MS {
      CacheRoundTrip(StorageAfterRead(items, TagCacheKey(tag, limit), readTime), TagCacheKey(tag, limit),
                     SliceTo(Normalize(data), limit), writeTime, laterTime);
    }
  }

  /** When every mirror fails, the tag query returns the empty list and caches nothing. */
  lemma TagQueryOnFailure(items: map<string, StoredItem>, tag: string, limit: int, settlements: seq<Settlement>,
                          readTime: int, writeTime: int, writeSucceeds: bool)
    requires CachedValue(items, TagCacheKey(tag, limit), readTime).None?
    requires forall i :: 0 <= i < |settlements| ==> settlements[i].outcome.Rejected?
    ensures TagQueryResult(items, tag, limit, settlements, readTime) == []
    ensures TagQueryStorage(items, tag, limit, settlements, readTime, writeTime, writeSucceeds)
         == StorageAfterRead(items, TagCacheKey(tag, limit), readTime)
  {
    AnyResolvesIffSomeFulfilled(SettledOutcomes(settlements));
  }

  /** `Promise.all` is all or nothing: it fails exactly when some lookup fails, and otherwise keeps every body in order. */
  lemma {:induction false} AllBodiesAllOrNothing(lookups: seq<seq<Settlement>>)
    ensures AllBodies(lookups).None? <==> exists i :: 0 <= i < |lookups| && MirrorResult(lookups[i]).Failure?
    ensures AllBodies(lookups).Some? ==>
      |AllBodies(lookups).value| == |lookups| &&
      forall i | 0 <= i < |lookups| :: MirrorResult(lookups[i]) == Success(AllBodies(lookups).value[i])
  {
    if lookups != [] {
      var init := lookups[..|lookups| - 1];
      AllBodiesAllOrNothing(init);
      assert forall i | 0 <= i < |init| :: lookups[i] == init[i];
      if AllBodies(init).None? {
        var i :| 0 <= i < |init| && MirrorResult(init[i]).Failure?;
        assert MirrorResult(lookups[i]).Failure?;
      }
    }
  }

  /** `x` is an element of `body` once flattened: one of its items if it is an array, the body itself otherwise. */
  predicate InBody(body: Json, x: Json) {
    if body.JArray? then x in body.items else x == body
  }

  lemma {:induction false} FlatMembers(bodies: seq<Json>, x: Json)
    ensures x in Flat(bodies) <==> exists i :: 0 <= i < |bodies| && InBody(bodies[i], x)
  {
    if bodies != [] {
      var init, last := bodies[..|bodies| - 1], bodies[|bodies| - 1];
      FlatMembers(init, x);
      assert Flat(bodies) == Flat(init) + (if last.JArray? then last.items else [last]);
      assert x in Flat(bodies) <==> x in Flat(init) || InBody(last, x);
      if x in Flat(init) {
        var i :| 0 <= i < |init| && InBody(init[i], x);
        assert bodies[i] == init[i];
      } else if InBody(last, x) {
        assert InBody(bodies[|bodies| - 1], x);
      } else {
        forall i | 0 <= i < |bodies| ensures !InBody(bodies[i], x) {
          if i < |init| {
            assert bodies[i] == init[i];
          }
        }
      }
    }
  }

  /** Two favourites lists with the same members, in whatever order, share one cache entry and one result. */
  lemma FavoritesShareCacheEntry(items: map<string, StoredItem>, a: seq<string>, b: seq<string>,
                                 lookups: seq<seq<Settlement>>, readTime: int, writeTime: int, writeSucceeds: bool)
    requires multiset(a) == multiset(b)
    ensures a != [] ==> UuidsCacheKey(SortStrings(a)) == UuidsCacheKey(SortStrings(b))
    ensures UuidsQueryResult(items, a, lookups, readTime) == UuidsQueryResult(items, b, lookups, readTime)
    ensures UuidsQueryStorage(items, a, lookups, readTime, writeTime, writeSucceeds)
         == UuidsQueryStorage(items, b, lookups, readTime, writeTime, writeSucceeds)
  {
    SortIgnoresOrder(a, b);
    assert |a| == |multiset(a)| == |multiset(b)| == |b|;
  }

  /**
   * On a cache miss with every lookup answered, the favourites query returns
   * admitted records, most voted first, one per name, each taken from the
   * body of one of the lookups.
   */
  lemma UuidsQueryOnMiss(items: map<string, StoredItem>, uuids: seq<string>, lookups: seq<seq<Settlement>>, readTime: int)
    requires uuids != []
    requires CachedValue(items, UuidsCacheKey(SortStrings(uuids)), readTime).None?
    requires forall i :: 0 <= i < |lookups| ==> MirrorResult(lookups[i]).Success?
    ensures var r := UuidsQueryResult(items, uuids, lookups, readTime);
      SortedByVotes(r) && DistinctNames(r) &&
      forall x | x in r :: Admitted(JStation(x)) &&
        exists i :: 0 <= i < |lookups| && InBody(MirrorResult(lookups[i]).value, JStation(x))
  {
    AllBodiesAllOrNothing(lookups);
    var bodies := AllBodies(lookups).value;
    var data := JArray(Flat(bodies));
    FilterKeepsAdmittedRecords(data);
    FilterNamesUnique(data);
    FilterOrdersByVotes(data);
    forall x | x in Normalize(data)
      ensures exists i :: 0 <= i < |lookups| && InBody(MirrorResult(lookups[i]).value, JStation(x))
    {
      FlatMembers(bodies, JStation(x));
      var i :| 0 <= i < |bodies| && InBody(bodies[i], JStation(x));
      assert MirrorResult(lookups[i]).value == bodies[i];
    }
  }

  /** If any lookup fails, the favourites query returns the empty list and caches nothing. */
  lemma UuidsQueryOnFailure(items: map<string, StoredItem>, uuids: seq<string>, lookups: seq<seq<Settlement>>,
                            readTime: int, writeTime: int, writeSucceeds: bool)
    requires CachedValue(items, UuidsCacheKey(SortStrings(uuids)), readTime).None?
    requires exists i :: 0 <= i < |lookups| && MirrorResult(lookups[i]).Failure?
    ensures UuidsQueryResult(items, uuids, lookups, readTime) == []
    ensures uuids != [] ==>
      UuidsQueryStorage(items, uuids, lookups, readTime, writeTime, writeSucceeds)
        == StorageAfterRead(items, UuidsCacheKey(SortStrings(uuids)), readTime)
  {
    AllBodiesAllOrNothing(lookups);
  }
}

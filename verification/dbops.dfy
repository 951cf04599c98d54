/**
 * DBOps (server.py:63-124): the database operations of the URL shortener,
 * with the database abstracted to a map from id to url and the two
 * process-wide caches made explicit objects.
 */
module Server {
  import opened Wrappers
  import opened Charset
  import opened LengthPolicy
  import opened Caches
  import opened Allocation

  /** Keys of TIMED_CACHE: ("count",) and ("random_id_length", kw.get("maxfill")). */
  datatype TimedKey = CountKey | LengthKey(maxfill: Option<real>)

  /** The key get_random_id_length caches under. Its key function looks up
      the keyword "maxfill", which is not the name of the max_fill parameter
      and which no caller passes, and ignores min_length: every call uses
      ("random_id_length", None), so all callers share one cached length. */
  const LengthCacheKey: TimedKey := LengthKey(None)

  /** TIMED_CACHE: at most 10 entries, each living 10 minutes. */
  const TimedCacheSize: nat := 10
  const TimedCacheTtl: nat := 600
  /** URL_CACHE: at most 128 entries. */
  const UrlCacheSize: nat := 128

  /** TIMED_CACHE holds at most its two keys, so it never fills up. */
  lemma AtMostTwoTimedKeys(order: seq<TimedKey>)
    requires NoDuplicates(order)
    requires forall k :: k in order ==> k == CountKey || k == LengthCacheKey
    ensures |order| <= 2
  {
    var keys := map k | k in order :: 0;
    SizeOfKeys(keys, order);
    if CountKey in keys && LengthCacheKey in keys {
      assert keys.Keys == {CountKey, LengthCacheKey};
    } else if CountKey in keys {
      assert keys.Keys == {CountKey};
    } else if LengthCacheKey in keys {
      assert keys.Keys == {LengthCacheKey};
    } else {
      assert keys.Keys == {};
    }
  }

  /** Every id in `ids` is an identifier string of length `n`. */
  predicate AllIdsOfLength(ids: seq<string>, n: nat) {
    forall i :: 0 <= i < |ids| ==> IsIdString(ids[i]) && |ids[i]| == n
  }

  lemma AllIdsOfLengthSnoc(ids: seq<string>, id: string, n: nat)
    requires AllIdsOfLength(ids, n)
    requires IsIdString(id) && |id| == n
    ensures AllIdsOfLength(ids + [id], n)
  {
  }

  /** The entries of TIMED_CACHE. */
  type TimedEntries = map<TimedKey, Entry<nat>>

  /** The value TIMED_CACHE answers with for `key` at `now`, if it holds a
      live one. */
  function Cached(entries: TimedEntries, key: TimedKey, now: int): Option<nat> {
    if LiveIn(entries, Some(TimedCacheTtl), key, now) then Some(entries[key].value) else None
  }

  /** What get_urls_count answers at `now`: the cached count while it is
      live, otherwise the size of the table. */
  function CountAnswer(entries: TimedEntries, store: Store, now: int): nat {
    if Cached(entries, CountKey, now).Some? then Cached(entries, CountKey, now).value else |store|
  }

  /** What get_random_id_length answers at `now`: the cached length while it
      is live, whatever policy it was computed with, otherwise the policy's
      length for the current count. */
  function LengthAnswer(entries: TimedEntries, store: Store, now: int, maxFill: real, minLength: nat): nat
    requires maxFill > 0.0
  {
    if Cached(entries, LengthCacheKey, now).Some? then Cached(entries, LengthCacheKey, now).value
    else IdLength(CountAnswer(entries, store, now), maxFill, minLength)
  }

  /** The cached count once get_random_id_length has run at `now`: left
      alone when the length was cached, otherwise the count it read. */
  function CountAfterLength(entries: TimedEntries, store: Store, now: int): Option<nat> {
    if Cached(entries, LengthCacheKey, now).Some? then Cached(entries, CountKey, now)
    else Some(CountAnswer(entries, store, now))
  }

  /** The table queries get_random_id_length makes at `now`: one, when
      neither the length nor the count is cached. */
  function QueriesForLength(entries: TimedEntries, now: int): nat {
    if Cached(entries, LengthCacheKey, now).Some? || Cached(entries, CountKey, now).Some? then 0 else 1
  }

  /** TIMED_CACHE's entries after `key` is set to `value` at `now`: the
      stale entries are expired, every live one is kept as it was, and the
      new entry lives for the time-to-live. The cache never fills up, so
      nothing is evicted. From `now` on, the stored value is answered until
      `now + TimedCacheTtl` and every other key answers as before. */
  function Stored(entries: TimedEntries, key: TimedKey, value: nat, now: int): (r: TimedEntries)
    ensures key in r && r[key] == Entry(value, now + TimedCacheTtl)
    ensures forall later :: now <= later ==>
              Cached(r, key, later) == if later < now + TimedCacheTtl then Some(value) else None
    ensures forall k, later :: k != key && now <= later ==> Cached(r, k, later) == Cached(entries, k, later)
  {
    (map k | k in entries && LiveIn(entries, Some(TimedCacheTtl), k, now) :: entries[k])[key := Entry(value, now + TimedCacheTtl)]
  }

  /** The entries a store of `key` at `now` leaves are exactly those of
      `Stored`: the new entry, and every other entry a live old one kept as
      it was. */
  lemma StoredExactly(before: TimedEntries, after: TimedEntries, key: TimedKey, value: nat, now: int)
    requires key in after && after[key] == Entry(value, now + TimedCacheTtl)
    requires forall k :: k in after && k != key ==>
               k in before && after[k] == before[k] && LiveIn(before, Some(TimedCacheTtl), k, now)
    requires forall k :: k != key && LiveIn(before, Some(TimedCacheTtl), k, now) ==> k in after
    ensures after == Stored(before, key, value, now)
  {
  }

  /** TIMED_CACHE's entries once get_urls_count has run at `now`: unchanged
      on a hit, the table's size stored on a miss. */
  function AfterCount(entries: TimedEntries, store: Store, now: int): (r: TimedEntries)
    ensures CountKey in r && r[CountKey].value == CountAnswer(entries, store, now)
    ensures r[CountKey].expires == if Cached(entries, CountKey, now).Some? then entries[CountKey].expires else now + TimedCacheTtl
    ensures forall at :: now <= at ==> Cached(r, LengthCacheKey, at) == Cached(entries, LengthCacheKey, at)
  {
    if Cached(entries, CountKey, now).Some? then entries else Stored(entries, CountKey, |store|, now)
  }

  /** TIMED_CACHE's entries once get_random_id_length has run at `now`:
      unchanged on a hit, otherwise the count is read through the cache and
      the computed length stored. */
  function AfterLength(entries: TimedEntries, store: Store, now: int, maxFill: real, minLength: nat): (r: TimedEntries)
    requires maxFill > 0.0
    ensures LengthCacheKey in r && r[LengthCacheKey].value == LengthAnswer(entries, store, now, maxFill, minLength)
    ensures r[LengthCacheKey].expires
              == if Cached(entries, LengthCacheKey, now).Some? then entries[LengthCacheKey].expires else now + TimedCacheTtl
  {
    if Cached(entries, LengthCacheKey, now).Some? then entries
    else Stored(AfterCount(entries, store, now), LengthCacheKey, LengthAnswer(entries, store, now, maxFill, minLength), now)
  }

  /** A count read from the table is answered from TIMED_CACHE, whatever the
      table holds by then, for the next 600 seconds, and only until then;
      a count that was live stays the answer until its own expiry time. */
  lemma CountLivesTenMinutes(entries: TimedEntries, store: Store, later: Store, now: int, at: int)
    requires now <= at
    ensures var after := AfterCount(entries, store, now);
            Cached(after, CountKey, at).Some? <==> at < after[CountKey].expires
    ensures var after := AfterCount(entries, store, now);
            at < after[CountKey].expires ==> CountAnswer(after, later, at) == CountAnswer(entries, store, now)
  {
  }

  /** A length computed at `now` is answered from TIMED_CACHE for the next
      600 seconds, whatever policy a later caller asks for and whatever the
      table holds by then, and without a query; a length that was live stays
      the answer until its own expiry time. */
  lemma LengthLivesTenMinutes(entries: TimedEntries, store: Store, later: Store, now: int, at: int,
                              maxFill: real, minLength: nat, laterMaxFill: real, laterMinLength: nat)
    requires maxFill > 0.0 && laterMaxFill > 0.0
    requires now <= at
    ensures var after := AfterLength(entries, store, now, maxFill, minLength);
            at < after[LengthCacheKey].expires ==>
              && LengthAnswer(after, later, at, laterMaxFill, laterMinLength) == LengthAnswer(entries, store, now, maxFill, minLength)
              && QueriesForLength(after, at) == 0
              && AfterLength(after, later, at, laterMaxFill, laterMinLength) == after
  {
  }

  class DBOps {
    /** The ShortURL table. */
    var store: Store
    /** The number of queries the table has answered: counts and lookups by id. */
    var queries: nat
    const timedCache: Cache<TimedKey, nat>
    const urlCache: Cache<string, Option<string>>

    ghost predicate Valid()
      reads this, timedCache, urlCache
    {
      && TimedCacheValid()
      && urlCache.Valid()
      && urlCache.capacity == UrlCacheSize
      && urlCache.ttl == None
      && timedCache as object != urlCache as object
      && UrlCacheAgrees()
    }

    /** TIMED_CACHE has its size and time-to-live and holds only the count
        and the shared length. */
    ghost predicate TimedCacheValid()
      reads timedCache
    {
      && timedCache.Valid()
      && timedCache.capacity == TimedCacheSize
      && timedCache.ttl == Some(TimedCacheTtl)
      && (forall k :: k in timedCache.entries ==> k == CountKey || k == LengthCacheKey)
    }

    /** Every cached resolution that found a URL agrees with the table. */
    ghost predicate UrlCacheAgrees()
      reads this, urlCache
    {
      forall id :: id in urlCache.entries && urlCache.entries[id].value.Some? ==>
        id in store && store[id] == urlCache.entries[id].value.value
    }

    /** The process start: TIMED_CACHE and URL_CACHE are class attributes
        created empty once, and every request's DBOps(session) shares them
        and the one table; this object stands for all of them. */
    constructor (store: Store)
      ensures Valid()
      ensures this.store == store && queries == 0
      ensures timedCache.entries == map[] && urlCache.entries == map[]
      ensures fresh(timedCache) && fresh(urlCache)
    {
      this.store := store;
      queries := 0;
      timedCache := new Cache(TimedCacheSize, Some(TimedCacheTtl));
      urlCache := new Cache(UrlCacheSize, None);
    }

    /** TIMED_CACHE[key] at `now`: the value while it is live; a present
        key becomes the most recently used one. */
    method LookupTimed(key: TimedKey, now: int) returns (r: Option<nat>)
      requires TimedCacheValid()
      modifies timedCache
      ensures TimedCacheValid()
      ensures timedCache.entries == old(timedCache.entries)
      ensures r == Cached(timedCache.entries, key, now)
      ensures key in timedCache.entries ==> timedCache.order[|timedCache.order| - 1] == key
    {
      r := timedCache.Lookup(key, now);
    }

    /** TIMED_CACHE[key] = value at `now`. The cache never fills up, so the
        new entry lives until `now + TimedCacheTtl` and the other key keeps
        its entry exactly when it was live. */
    method PutTimed(key: TimedKey, value: nat, now: int)
      requires TimedCacheValid()
      requires key == CountKey || key == LengthCacheKey
      modifies timedCache
      ensures TimedCacheValid()
      ensures Cached(timedCache.entries, key, now) == Some(value)
      ensures forall k :: k != key ==> Cached(timedCache.entries, k, now) == Cached(old(timedCache.entries), k, now)
      ensures timedCache.entries == Stored(old(timedCache.entries), key, value, now)
      ensures timedCache.order != [] && timedCache.order[|timedCache.order| - 1] == key
    {
      AtMostTwoTimedKeys(timedCache.order);
      timedCache.Store(key, value, now);
      StoredExactly(old(timedCache.entries), timedCache.entries, key, value, now);
    }

    /** get_urls_count: the number of rows, cached in TIMED_CACHE. */
    method GetUrlsCount(now: int) returns (count: nat)
      requires Valid()
      modifies this`queries, timedCache
      ensures Valid()
      ensures count == CountAnswer(old(timedCache.entries), store, now)
      ensures queries == old(queries) + (if Cached(old(timedCache.entries), CountKey, now).Some? then 0 else 1)
      ensures Cached(timedCache.entries, CountKey, now) == Some(count)
      ensures Cached(timedCache.entries, LengthCacheKey, now) == Cached(old(timedCache.entries), LengthCacheKey, now)
      ensures timedCache.entries == AfterCount(old(timedCache.entries), store, now)
      ensures timedCache.order != [] && timedCache.order[|timedCache.order| - 1] == CountKey
    {
      var cached := LookupTimed(CountKey, now);
      if cached.Some? {
        count := cached.value;
      } else {
        queries := queries + 1;
        count := |store|;
        PutTimed(CountKey, count, now);
      }
    }

    /** get_random_id_length: the policy's length for the current count,
        cached in TIMED_CACHE under the one shared key. */
    method GetRandomIdLength(maxFill: real, minLength: nat, now: int) returns (len: nat)
      requires Valid()
      requires maxFill > 0.0
      modifies this`queries, timedCache
      ensures Valid()
      ensures len == LengthAnswer(old(timedCache.entries), store, now, maxFill, minLength)
      ensures Cached(timedCache.entries, LengthCacheKey, now) == Some(len)
      ensures Cached(timedCache.entries, CountKey, now) == CountAfterLength(old(timedCache.entries), store, now)
      ensures queries == old(queries) + QueriesForLength(old(timedCache.entries), now)
      ensures timedCache.entries == AfterLength(old(timedCache.entries), store, now, maxFill, minLength)
      ensures timedCache.order != [] && timedCache.order[|timedCache.order| - 1] == LengthCacheKey
    {
      var cached := LookupTimed(LengthCacheKey, now);
      if cached.Some? {
        len := cached.value;
      } else {
        var count := GetUrlsCount(now);
        len := RandomIdLength(count, maxFill, minLength);
        PutTimed(LengthCacheKey, len, now);
      }
    }

    /** get_next_id: as many random charset characters as
        get_random_id_length (with its default policy) asks for. */
    method NextId(now: int) returns (id: string)
      requires Valid()
      modifies this`queries, timedCache
      ensures Valid()
      ensures IsIdString(id)
      ensures |id| == LengthAnswer(old(timedCache.entries), store, now, DefaultMaxFill, DefaultMinLength)
      ensures Cached(timedCache.entries, LengthCacheKey, now) == Some(|id|)
      ensures Cached(timedCache.entries, CountKey, now) == CountAfterLength(old(timedCache.entries), store, now)
      ensures queries == old(queries) + QueriesForLength(old(timedCache.entries), now)
      ensures timedCache.entries == AfterLength(old(timedCache.entries), store, now, DefaultMaxFill, DefaultMinLength)
    {
      var len := GetRandomIdLength(DefaultMaxFill, DefaultMinLength, now);
      var picks: seq<nat> := [];
      for i := 0 to len
        invariant |picks| == i
        invariant forall j :: 0 <= j < i ==> picks[j] < CharsetSize
      {
        var pick: nat :| pick < CharsetSize;  // random.choice draws an index into the charset
        picks := picks + [pick];
      }
      id := IdFromPicks(picks);
    }

    /** make_url: draws candidate ids until one is absent from the table and
        commits it, giving up with Exhausted (MaxRetriesReached) on the
        conflict that finds `retries` at `maxRetries`. `tried` lists the
        candidates in the order they were attempted. Only the first draw can
        query the table: the later ones find the length it cached. */
    method MakeUrl(url: string, maxRetries: nat, now: int) returns (outcome: Outcome, tried: seq<string>)
      requires Valid()
      modifies this`store, this`queries, timedCache
      ensures Valid()
      ensures Run(old(store), url, tried, 0, maxRetries) == Some((outcome, |tried|))
      ensures outcome.Success? ==> outcome.record.id !in old(store) && outcome.record.url == url
      ensures store == Committed(old(store), outcome)
      ensures 1 <= |tried| <= maxRetries + 1
      ensures outcome.Exhausted? ==> |tried| == maxRetries + 1
      ensures AllIdsOfLength(tried, LengthAnswer(old(timedCache.entries), old(store), now, DefaultMaxFill, DefaultMinLength))
      ensures Cached(timedCache.entries, LengthCacheKey, now)
                == Some(LengthAnswer(old(timedCache.entries), old(store), now, DefaultMaxFill, DefaultMinLength))
      ensures Cached(timedCache.entries, CountKey, now) == CountAfterLength(old(timedCache.entries), old(store), now)
      ensures queries == old(queries) + QueriesForLength(old(timedCache.entries), now)
      ensures timedCache.entries == AfterLength(old(timedCache.entries), old(store), now, DefaultMaxFill, DefaultMinLength)
    {
      var retries: nat := 0;
      tried := [];
      // get_next_id opens every iteration; the draw for the next iteration
      // is taken at the end of the current one
      var id := NextId(now);
      // the first draw leaves a live length behind, so the later draws
      // neither query nor change TIMED_CACHE's entries
      ghost var length := |id|;
      ghost var settled := timedCache.entries;
      ghost var settledQueries := queries;
      while true
        invariant Valid()
        invariant store == old(store)
        invariant |tried| == retries <= maxRetries
        invariant AllTaken(tried, store)
        invariant AllIdsOfLength(tried, length)
        invariant IsIdString(id) && |id| == length
        invariant timedCache.entries == settled && queries == settledQueries
        decreases maxRetries - retries
      {
        AllIdsOfLengthSnoc(tried, id, length);
        ghost var conflicts := tried;
        tried := tried + [id];
        if id !in store {
          Commit(id, url);
          outcome := Success(ShortUrlRecord(id, url));
          assert tried[..retries] == conflicts && |tried| == retries + 1;
          SuccessAfterConflicts(old(store), url, tried, 0, maxRetries, retries);
          return;
        }
        AllTakenSnoc(conflicts, id, store);
        // IntegrityError on the primary key: the nested transaction is
        // rolled back and the table keeps its rows
        if retries >= maxRetries {
          outcome := Exhausted;
          assert |tried| == maxRetries + 1;
          ExhaustedAfterConflicts(old(store), url, tried, 0, maxRetries);
          return;
        }
        retries := retries + 1;
        id := NextId(now);
      }
    }

    /** The nested transaction of make_url commits a row under a new id. */
    method Commit(id: string, url: string)
      requires Valid()
      requires id !in store
      modifies this`store
      ensures Valid()
      ensures store == old(store)[id := url]
    {
      store := store[id := url];
    }

    /** get_url: the url stored for `id`, or None, cached in URL_CACHE
        (misses included). The LRU cache has no time-to-live, so the time
        passed to it is immaterial. */
    method GetUrl(id: string) returns (url: Option<string>)
      requires Valid()
      modifies this`queries, urlCache
      ensures Valid()
      ensures url.Some? ==> id in store && store[id] == url.value
      ensures old(id in urlCache.entries) ==> url == old(urlCache.entries[id].value) && queries == old(queries)
      ensures old(id !in urlCache.entries) ==>
                url == (if id in store then Some(store[id]) else None) && queries == old(queries) + 1
      ensures id in urlCache.entries && urlCache.entries[id].value == url
      ensures old(id in urlCache.entries) ==>
                urlCache.entries == old(urlCache.entries) && urlCache.order == Remove(old(urlCache.order), id) + [id]
      ensures old(id !in urlCache.entries) ==>
                urlCache.order == (if |old(urlCache.order)| == UrlCacheSize then old(urlCache.order)[1..] else old(urlCache.order)) + [id]
      ensures forall k :: k in urlCache.entries && k != id ==> urlCache.entries[k] == old(urlCache.entries)[k]
    {
      var cached := urlCache.Lookup(id, 0);
      if cached.Some? {
        url := cached.value;
      } else {
        queries := queries + 1;
        url := if id in store then Some(store[id]) else None;
        urlCache.Store(id, url, 0);
        forall k | k in urlCache.entries && urlCache.entries[k].value.Some?
          ensures k in store && store[k] == urlCache.entries[k].value.value
        {
          if k != id {
            assert k in old(urlCache.entries) && urlCache.entries[k] == old(urlCache.entries)[k];
          }
        }
      }
    }

    /** Resolving the same id twice gives the same answer, and the second
        answer comes from URL_CACHE without a query. */
    method RepeatedGetUrl(id: string) returns (first: Option<string>, second: Option<string>)
      requires Valid()
      modifies this`queries, urlCache
      ensures Valid()
      ensures first == second
      ensures queries <= old(queries) + 1
    {
      first := GetUrl(id);
      ghost var between := queries;
      second := GetUrl(id);
      assert queries == between;
    }

    /** Resolving `a` and then `b`: both stay in URL_CACHE with their answers,
        since `a` was the most recently used entry when `b` was looked up and
        the cache holds more than one entry. A further lookup of either is
        then a hit (GetUrl). */
    method GetTwoUrls(a: string, b: string) returns (first: Option<string>, second: Option<string>)
      requires Valid()
      modifies this`queries, urlCache
      ensures Valid()
      ensures a in urlCache.entries && urlCache.entries[a].value == first
      ensures b in urlCache.entries && urlCache.entries[b].value == second
      ensures a == b ==> first == second
      ensures queries <= old(queries) + 2
      ensures old(a in urlCache.entries) ==> queries <= old(queries) + 1
      ensures old(a in urlCache.entries) && old(b in urlCache.entries) ==> queries == old(queries)
    {
      first := GetUrl(a);
      second := GetUrl(b);
    }

    /** Resolving `a`, then `b`, then `a` again: the third answer repeats the
        first and comes from URL_CACHE; only the first two lookups can
        query the table. */
    method InterleavedGetUrl(a: string, b: string) returns (first: Option<string>, third: Option<string>)
      requires Valid()
      modifies this`queries, urlCache
      ensures Valid()
      ensures first == third
      ensures queries <= old(queries) + 2
      ensures old(a in urlCache.entries) ==> queries <= old(queries) + 1
      ensures old(a in urlCache.entries) && old(b in urlCache.entries) ==> queries == old(queries)
    {
      var second;
      first, second := GetTwoUrls(a, b);
      third := GetUrl(a);
    }

    /** get_urls_count twice, at `now` and at `at`: a count read from the
        table at `now` is still the answer at `at` within 600 seconds, with
        no second query; a count already cached stays the answer until its
        own expiry time. */
    method RepeatedGetUrlsCount(now: int, at: int) returns (first: nat, second: nat)
      requires Valid()
      requires now <= at
      modifies this`queries, timedCache
      ensures Valid()
      ensures first == CountAnswer(old(timedCache.entries), store, now)
      ensures Cached(old(timedCache.entries), CountKey, now).None? && at < now + TimedCacheTtl ==>
                second == first == |store| && queries == old(queries) + 1
      ensures Cached(old(timedCache.entries), CountKey, now).Some? && at < old(timedCache.entries)[CountKey].expires ==>
                second == first && queries == old(queries)
    {
      first := GetUrlsCount(now);
      CountLivesTenMinutes(old(timedCache.entries), store, store, now, at);
      second := GetUrlsCount(at);
    }

    /** make_url twice, at `now` and at `at`: a length computed at `now` is
        still the one every candidate of the second call has within 600
        seconds, and the second call makes no query. */
    method RepeatedMakeUrl(url: string, otherUrl: string, maxRetries: nat, now: int, at: int)
      returns (first: Outcome, tried: seq<string>, second: Outcome, otherTried: seq<string>)
      requires Valid()
      requires now <= at
      modifies this`store, this`queries, timedCache
      ensures Valid()
      ensures tried != [] && otherTried != []
      ensures Cached(old(timedCache.entries), LengthCacheKey, now).None? && at < now + TimedCacheTtl ==>
                AllIdsOfLength(otherTried, |tried[0]|) && queries == old(queries) + QueriesForLength(old(timedCache.entries), now)
    {
      ghost var start := timedCache.entries;
      first, tried := MakeUrl(url, maxRetries, now);
      ghost var between := store;
      LengthLivesTenMinutes(start, old(store), between, now, at, DefaultMaxFill, DefaultMinLength, DefaultMaxFill, DefaultMinLength);
      second, otherTried := MakeUrl(otherUrl, maxRetries, at);
    }
  }
}

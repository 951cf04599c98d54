# URL shortener: identifier allocation and resolution

A Dafny model of the core of a small URL shortener (`server.py`). The
service gives each long URL a short random identifier and resolves the
identifier back to the URL. The model covers the `DBOps` class and the
pieces it uses:

- the identifier charset: letters, digits, `-` and `.`, 64 characters;
- the length policy, which picks the identifier length from the number of
  stored records;
- the candidate generator, which draws one charset character per position;
- the allocation retry loop of `make_url` over a table keyed by `id`;
- the two caches in front of the table: a 10-entry cache with a
  10-minute time-to-live for the record count and the length, and a
  128-entry LRU cache for `id → url`;
- the short-URL string `BASE_URL + "/r/" + id`.

The database is a `map<string, string>` from `id` to `url`. Inserting an
`id` that is already present is the primary-key conflict, and the nested
transaction rolls it back. A query counter records every time the table
answers a count or a lookup, so the contracts can say when a cache spared
the table a query. The clock is a `now: int` parameter, and the random
draws are arbitrary choices of a charset index.

Modules, one file each:

- `Wrappers` (`wrappers.dfy`): `Option`.
- `Charset` (`charset.dfy`): the charset and `get_next_id` as a function of the drawn indexes.
- `LengthPolicy` (`length_policy.dfy`): the `get_random_id_length` loop and what it computes.
- `Caches` (`caches.dfy`): one `Cache` class, a map plus a recency sequence with an optional time-to-live.
- `Allocation` (`allocation.dfy`): the `make_url` retry loop as a pure function, the store effect and the short URL.
- `Server` (`dbops.dfy`): the `DBOps` class with the table, the query counter and both caches.

Behaviour as written, which the model keeps:

- `get_random_id_length` squares the length on every step but multiplies
  the tracked capacity by 64 only once. After k steps the length is
  `min_length^(2^k)` while the capacity the loop compares is
  `64^(min_length + k)`. With `min_length = 1` the length never grows
  (`LengthStuckAtOne`). With the default `min_length = 3`, the first growth
  step goes straight from 3 to 9 characters (`LengthJumpsFromThreeToNine`).
  For `min_length >= 2` the identifiers actually used still respect the
  fill ratio (`IdSpaceFits`).
- The length cache key reads the keyword `maxfill`, while the parameter is
  named `max_fill`. It also ignores `min_length`. So every call shares the
  key `("random_id_length", None)`, and a cached length is returned
  whatever policy the caller asks for (`DBOps.GetRandomIdLength`).
- `get_url` caches its `None` answers as well as its hits, because the
  memoizing decorator stores any return value. A repeated lookup of an
  unknown id is therefore answered from the cache, not recomputed. Cached URLs
  always agree with the table (`DBOps.UrlCacheAgrees`, part of
  `DBOps.Valid`). A cached `None` can go stale once a later `make_url`
  draws that same id.
- The capacity the loop compares is not recomputed as `64^length`, and the
  cached length is not keyed by the policy it was computed with (see the
  first two points).
- `TIMED_CACHE` and `URL_CACHE` are class attributes (server.py:68-72).
  They are created once and shared by every `DBOps(session)`, one of which
  is built per request. The model has one `DBOps` object that stands for
  the whole process: its constructor is the process start, when both
  caches are empty, and its methods are the calls of every request in
  turn. `TIMED_CACHE` only ever holds the count key and the shared length
  key, so it never reaches its 10 entries and nothing is evicted from it
  (`Server.AtMostTwoTimedKeys`, part of `DBOps.Valid`).

## Model

| member | source | states |
|---|---|---|
| `Charset.CharRange` | server.py:19 | the `n` characters from `first` on, at consecutive code points (the shape of `string.ascii_letters` and `string.digits`) |
| `Charset.CharIndex` | server.py:19 | every letter, digit, `-` and `.` sits in `SHORT_URL_CHARSET` at the index computed from its code point |
| `Charset.CharsetShape` | server.py:19 | the charset has exactly 64 characters, each an identifier character, none repeated |
| `Charset.CharsetMembership` | server.py:19 | a character is in the charset if and only if it is a letter, a digit, `-` or `.` |
| `Charset.IdFromPicks` | server.py:99-101 | the joined identifier has one character per draw, every character in the charset, and each character's charset index is its draw |
| `Charset.PicksOf` | server.py:99-101 | the draws behind an identifier: one per character, each a valid charset index |
| `Charset.PicksRoundTrip` | server.py:99-101 | draws and identifiers correspond one to one, so uniform draws give uniformly distributed identifiers |
| `LengthPolicy.Power` | server.py:91 | `charset_len ** cur_len` is at least 1 |
| `LengthPolicy.BelowBound` | server.py:92 | while the loop runs, the combinations stay below `count / max_fill`, which bounds the loop |
| `LengthPolicy.StepsFrom` | server.py:92-94 | the loop stops after the least number of steps k for which `64^(min_length + k) * max_fill >= count`: capacity covers the count on exit, and no earlier step did |
| `LengthPolicy.StepsUnique` | server.py:92-94 | a step count that fits while no earlier one does is the loop's step count |
| `LengthPolicy.RandomIdLength` | server.py:88-95 | the loop terminates for `max_fill > 0`, returns `min_length` squared once per step, leaves capacity `64^(min_length + steps)` covering the count, and never returns less than `min_length >= 1` |
| `LengthPolicy.SquaredTimesAtLeast` | server.py:93 | squaring a length of at least 1 never shrinks it below its start |
| `LengthPolicy.SquaredTimesMonotone` | server.py:93 | more squaring steps never give a shorter length when `min_length >= 1` |
| `LengthPolicy.SquaredTimesOutgrowsSteps` | server.py:93-94 | from a length of at least 2, k squarings give at least `min_length + k` |
| `LengthPolicy.PowerMonotone` | server.py:94 | more factors of 64 never give fewer combinations |
| `LengthPolicy.IdLengthAtLeastMin` | server.py:90-95 | with `min_length >= 1` the returned length is at least `min_length` |
| `LengthPolicy.IdLengthWhenFits` | server.py:90-92 | when `count <= 64^min_length * max_fill` (an empty table included), the length is exactly `min_length` |
| `LengthPolicy.StepsMonotone` | server.py:92-94 | a larger count takes at least as many growth steps |
| `LengthPolicy.IdLengthMonotone` | server.py:88-95 | for fixed `min_length >= 1` and `max_fill`, a larger count never yields a shorter length |
| `LengthPolicy.IdSpaceFits` | server.py:90-95 | with `min_length >= 2`, the identifier space `64^length` itself holds the count within the fill ratio |
| `LengthPolicy.SquaredOneIsOne` | server.py:93 | squaring a length of 1 keeps it 1 |
| `LengthPolicy.LengthStuckAtOne` | server.py:90-95 | with `min_length = 1` the length is 1 for every count; 20 records at fill ratio 0.3 already exceed the 64 one-character ids |
| `LengthPolicy.LengthJumpsFromThreeToNine` | server.py:87-95 | with the defaults, 78644 records give length 9, although length 4 would already respect the fill ratio |
| `Caches.Remove` | server.py:72 | dropping a key from the recency order keeps exactly the other keys, as a subsequence in their recency order, distinct, and shortens the order by one when the key was present |
| `Caches.KeepLive` | server.py:68-71 | exactly the keys whose entries have not reached their expiry time, as a subsequence of the recency order, without duplicates |
| `Caches.SizeOfKeys` | server.py:68-72 | a cache holds exactly as many entries as its recency order lists keys, so the order bounds its size |
| `Caches.Cache.constructor` | server.py:68-72 | a new cache is empty, with the given maxsize and time-to-live |
| `Caches.Cache.Lookup` | server.py:74-78 | a lookup returns the value exactly when the entry is live, changes no entry, and makes a present key the most recently used |
| `Caches.Cache.LiveKeys` | server.py:68-71 | the scan of the recency order yields exactly the live keys |
| `Caches.Cache.Expire` | server.py:68-71 | expiry keeps exactly the live entries, unchanged and in recency order, within the capacity |
| `Caches.Cache.EvictOldest` | server.py:68-72 | eviction removes exactly the least recently used entry |
| `Caches.Cache.Put` | server.py:68-72 | storing sets the key's entry and makes it the most recently used, keeping the size within maxsize |
| `Caches.Cache.Store` | server.py:68-72 | after a store the key is live with its new value and the most recently used; stale entries are gone; the least recently used entry is evicted only when the key is new and the cache is full; every other entry is an old live entry, unchanged; when the cache was not full every old live entry stays; the size never exceeds maxsize (10 and 128) |
| `Allocation.ShortUrl` | server.py:38-40 | the short URL is the base URL, then `/r/`, then the identifier, in that order and nothing else |
| `Allocation.IdOfShortUrl` | server.py:39-40 | reading a string as a short URL gives an identifier exactly when some identifier builds that string |
| `Allocation.ShortUrlRoundTrip` | server.py:39-40 | a short URL gives back the identifier it was built from |
| `Allocation.Run` | server.py:103-118 | the retry loop commits the first absent candidate; every earlier attempt conflicted; it gives up only on a conflict once the budget is spent; it makes at most `max_retries + 1` attempts |
| `Allocation.SuccessAfterConflicts` | server.py:103-118 | conflicts on the first `k <= max_retries` attempts and a free id next: success with that id after exactly `k + 1` attempts |
| `Allocation.ExhaustedAfterConflicts` | server.py:113-118 | every attempt conflicts: `MaxRetriesReached` after exactly `max_retries + 1` attempts |
| `Allocation.Committed` | server.py:107-117 | success adds exactly one record, with a previously absent id and the input url, and keeps every other record; exhaustion leaves the table as it was |
| `Server.AtMostTwoTimedKeys` | server.py:74-86 | the timed cache, holding only the count key and the one shared length key, has at most two entries, below its maxsize of 10 |
| `Server.DBOps.constructor` | server.py:68-72 | the process start: the class-level caches `TIMED_CACHE` (10 entries, 600 seconds) and `URL_CACHE` (128 entries) are created empty over the initial table, and no query has been made |
| `Server.DBOps.LookupTimed` | server.py:74-75 | a lookup in `TIMED_CACHE` answers the value exactly while its entry is live, changes no entry, and makes a present key the most recently used |
| `Server.Stored` | server.py:68-71 | a store into `TIMED_CACHE` at `now` gives the key the entry expiring at `now + 600`, so from `now` on it answers the value exactly until then; every other key answers at every later time as it did before |
| `Server.AfterCount` | server.py:74-80 | after `get_urls_count` at `now` the count entry holds the count it answered and expires at its old expiry time when it was live, otherwise at `now + 600`; the length key answers at every later time as before |
| `Server.AfterLength` | server.py:82-95 | after `get_random_id_length` at `now` the length entry holds the length it answered and expires at its old expiry time when it was live, otherwise at `now + 600` |
| `Server.CountLivesTenMinutes` | server.py:68-80 | once `get_urls_count` has run, the count stays cached exactly until its expiry time, and until then it is the answer whatever the table holds |
| `Server.LengthLivesTenMinutes` | server.py:68-95 | until the cached length expires, a later `get_random_id_length` answers it whatever the table holds and whatever `max_fill` and `min_length` it is given, with no query and no entry changed |
| `Server.DBOps.PutTimed` | server.py:74-75 | a store into `TIMED_CACHE` leaves exactly the entries of `Stored`: the key with its value until `now + 600`, as the most recently used key, and the other key's entry unchanged exactly when it was live |
| `Server.DBOps.GetUrlsCount` | server.py:74-80 | the count is the cached one while it is live and is otherwise the table's size, with exactly one query; afterwards the count is cached and the most recently used key; a hit leaves every entry as it was; the cached length is unchanged, live or not; the new entries are exactly `AfterCount`, so a count read from the table lives 600 seconds |
| `Server.DBOps.GetRandomIdLength` | server.py:82-95 | a live cached length is returned whatever `max_fill` and `min_length` are (one shared key), with no query and no entry changed; otherwise the policy length for the current count is computed and cached, the count read on the way is cached too, and the table is queried once exactly when the count was not cached either; the new entries are exactly `AfterLength`, so a computed length lives 600 seconds |
| `Server.DBOps.NextId` | server.py:97-101 | the candidate has exactly the current `get_random_id_length()` characters, all from the charset; the length is cached afterwards, with the count and the queries of `GetRandomIdLength`; a cached length makes the draw change no entry and make no query; the new entries are exactly `AfterLength` |
| `Server.DBOps.MakeUrl` | server.py:103-118 | the attempts follow `Allocation.Run`, at most `max_retries + 1` and exactly that many on exhaustion; the table gains exactly the one committed record or is unchanged; every candidate has the length `get_random_id_length()` gave at the call; that length is cached afterwards, the entries being exactly `AfterLength` at the call's time, and only the first draw can query the table, at most once |
| `Server.DBOps.Commit` | server.py:107-110 | the nested transaction adds the row under an id absent from the table and keeps the caches consistent with it |
| `Server.DBOps.GetUrl` | server.py:120-124 | a cached id is answered from the cache without a query, no entry changes, and the id becomes the most recently used; otherwise the table is queried once, the answer is cached as the most recently used entry, and the least recently used entry is evicted exactly when the cache held 128; no other entry changes; a URL returned is the one stored for the id |
| `Server.DBOps.RepeatedGetUrl` | server.py:120-124 | resolving an id twice gives the same answer with at most one query |
| `Server.DBOps.GetTwoUrls` | server.py:120-124 | after resolving `a` and then `b`, both are cached with the answers given, so a further lookup of either is a hit; at most two queries, none when both were cached, at most one when `a` was |
| `Server.DBOps.InterleavedGetUrl` | server.py:120-124 | resolving `a`, then `b`, then `a` again gives the first answer the third time; the three calls make at most two queries, at most one when `a` was cached, none when both were |
| `Server.DBOps.RepeatedGetUrlsCount` | server.py:68-80 | a count read from the table at `now` is answered again at any time before `now + 600` with no second query; a count already cached is answered again until its own expiry time |
| `Server.DBOps.RepeatedMakeUrl` | server.py:68-118 | when no length was cached at `now`, a second `make_url` before `now + 600` draws every candidate with the length of the first call's candidates, and neither call queries beyond the first draw |

## Left out

- The HTTP layer: `lifespan`, `get_session`, the `url_shorten`, `url_resolve` and `index` routes, and `main`. The 503 and 404 mappings branch on `Outcome.Exhausted` and on a `None` from `get_url`.
- Database plumbing: the engine, sessions, `begin_nested`, `commit`, `rollback` and the SQL `count` query. The table is a map. A conflicting insert leaves it unchanged, which is what the rollback guarantees.
- Integrity errors other than the primary-key conflict: `make_url` retries on every `IntegrityError` (server.py:113), but apart from the primary key on `id` (server.py:32) the table has only NOT NULL constraints, which a string `url` and a generated `id` never violate, so `id in store` is the only conflict the model represents. Other database errors, which `make_url` does not catch, are not part of this model.
- Environment and configuration parsing: `BASE_URL` is a parameter of `Allocation.ShortUrl`, and the limits are constants or parameters.
- The `created` timestamp and wall-clock time. Time is an integer `now` passed to each operation. One `make_url` call uses a single `now` for all its attempts.
- The `random` module: each draw is an arbitrary charset index, so the model says nothing about the distribution.
- Per-request `DBOps(session)` objects: all of them share the class-level caches and the one table, so the model has a single `DBOps` object for the process.
- Server.DBOps.MakeUrl: holds one `now` fixed during the call, so the time-to-live cache cannot expire between its attempts.
- cachetools is not part of this model. Its caches are modelled from their documented behaviour. Expiry walks every entry rather than stopping at the first live one in expiry order; it removes the same entries when times only grow.
- Concurrency: the caches are shared by concurrent requests, but the model is sequential. Uniqueness comes from the map's keys.
- Floating point: `max_fill` is an exact `real` with `max_fill > 0`.

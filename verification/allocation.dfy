/**
 * What DBOps.make_url (server.py:103-118) does with the candidate ids it
 * draws, as pure functions over the store, and the short URL of a record
 * (ShortURL.short_url, server.py:39-40).
 *
 * The store is the ShortURL table keyed by its primary key `id`
 * (server.py:32): inserting an id that is already present fails with an
 * integrity error and the nested transaction is rolled back.
 */
module Allocation {
  import opened Wrappers

  /** A ShortURL row (server.py:31-36) without its creation time. */
  datatype ShortUrlRecord = ShortUrlRecord(id: string, url: string)

  /** The result of make_url: the committed record, or MaxRetriesReached. */
  datatype Outcome = Success(record: ShortUrlRecord) | Exhausted

  /** The ShortURL table: id to url. */
  type Store = map<string, string>

  /** make_url's default retry budget. */
  const DefaultMaxRetries: nat := 5

  /** ShortURL.short_url: the base URL, "/r/" and the identifier. */
  function ShortUrl(baseUrl: string, id: string): (s: string)
    ensures |s| == |baseUrl| + 3 + |id|
    ensures s[..|baseUrl|] == baseUrl
    ensures s[|baseUrl|..|baseUrl| + 3] == "/r/"
    ensures s[|baseUrl| + 3..] == id
  {
    baseUrl + "/r/" + id
  }

  /** The identifier a short URL under `baseUrl` carries, as the path
      parameter of the /r/{short_url} route; None for any other string. */
  function IdOfShortUrl(baseUrl: string, s: string): (r: Option<string>)
    ensures r.Some? ==> ShortUrl(baseUrl, r.value) == s
    ensures r.None? ==> forall id :: ShortUrl(baseUrl, id) != s
  {
    var prefix := baseUrl + "/r/";
    if |prefix| <= |s| && s[..|prefix|] == prefix then
      assert s == prefix + s[|prefix|..];
      Some(s[|prefix|..])
    else
      None
  }

  /** A short URL gives back the identifier it was built from. */
  lemma ShortUrlRoundTrip(baseUrl: string, id: string)
    ensures IdOfShortUrl(baseUrl, ShortUrl(baseUrl, id)) == Some(id)
  {
    var s := ShortUrl(baseUrl, id);
    assert s[..|baseUrl| + 3] == baseUrl + "/r/";
  }

  /** The retry loop of make_url when its attempts draw `candidates` in
      order and `retries` conflicts are already counted: the outcome and the
      number of attempts made, or None when the candidates run out first.
      An absent candidate is committed; a present one is a conflict, which
      ends the loop once `retries` has reached `maxRetries`. */
  function Run(store: Store, url: string, candidates: seq<string>, retries: nat, maxRetries: nat)
    : (r: Option<(Outcome, nat)>)
    ensures r.Some? ==> 1 <= r.value.1 <= |candidates|
    ensures r.Some? ==> forall i :: 0 <= i < r.value.1 - 1 ==> candidates[i] in store
    ensures r.Some? && r.value.0.Success? ==>
      r.value.0.record == ShortUrlRecord(candidates[r.value.1 - 1], url)
      && candidates[r.value.1 - 1] !in store
    ensures r.Some? && r.value.0.Exhausted? ==>
      candidates[r.value.1 - 1] in store && retries + r.value.1 - 1 >= maxRetries
    ensures r.Some? && retries <= maxRetries ==> retries + r.value.1 <= maxRetries + 1
    decreases |candidates|
  {
    if candidates == [] then None
    else if candidates[0] !in store then Some((Success(ShortUrlRecord(candidates[0], url)), 1))
    else if retries >= maxRetries then Some((Exhausted, 1))
    else
      match Run(store, url, candidates[1..], retries + 1, maxRetries)
      case None => None
      case Some((outcome, attempts)) => Some((outcome, attempts + 1))
  }

  /** Every id in `ids` is already in the table: each of them conflicts. */
  predicate AllTaken(ids: seq<string>, store: Store) {
    forall i :: 0 <= i < |ids| ==> ids[i] in store
  }

  lemma AllTakenSnoc(ids: seq<string>, id: string, store: Store)
    requires AllTaken(ids, store)
    requires id in store
    ensures AllTaken(ids + [id], store)
  {
  }

  /** Conflicts on the first k attempts and a free id on the next one, within
      the budget: make_url succeeds with that id after exactly k + 1 attempts. */
  lemma {:induction false} SuccessAfterConflicts(
    store: Store, url: string, candidates: seq<string>, retries: nat, maxRetries: nat, k: nat)
    requires retries + k <= maxRetries
    requires k < |candidates|
    requires AllTaken(candidates[..k], store)
    requires candidates[k] !in store
    ensures Run(store, url, candidates, retries, maxRetries)
         == Some((Success(ShortUrlRecord(candidates[k], url)), k + 1))
  {
    if k > 0 {
      assert candidates[..k][0] == candidates[0];
      assert candidates[1..][..k - 1] == candidates[..k][1..];
      SuccessAfterConflicts(store, url, candidates[1..], retries + 1, maxRetries, k - 1);
    }
  }

  /** Every attempt conflicts: make_url gives up after exactly
      maxRetries - retries + 1 attempts. */
  lemma {:induction false} ExhaustedAfterConflicts(
    store: Store, url: string, candidates: seq<string>, retries: nat, maxRetries: nat)
    requires retries <= maxRetries
    requires maxRetries - retries + 1 == |candidates|
    requires AllTaken(candidates, store)
    ensures Run(store, url, candidates, retries, maxRetries) == Some((Exhausted, maxRetries - retries + 1))
    decreases maxRetries - retries
  {
    assert candidates[0] in store;
    if retries < maxRetries {
      ExhaustedAfterConflicts(store, url, candidates[1..], retries + 1, maxRetries);
    }
  }

  /** The store after make_url: the new record committed on success,
      unchanged on exhaustion. */
  function Committed(store: Store, outcome: Outcome): (r: Store)
    requires outcome.Success? ==> outcome.record.id !in store
    ensures forall id :: id in store ==> id in r && r[id] == store[id]
    ensures outcome.Exhausted? ==> r == store
    ensures outcome.Success? ==>
      r.Keys == store.Keys + {outcome.record.id}
      && |r| == |store| + 1
      && r[outcome.record.id] == outcome.record.url
  {
    if outcome.Success? then store[outcome.record.id := outcome.record.url] else store
  }
}

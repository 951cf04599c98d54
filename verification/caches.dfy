/**
 * The two caches of DBOps (server.py:68-72): TIMED_CACHE, a cachetools
 * TTLCache of 10 entries living 600 seconds, and URL_CACHE, a cachetools
 * LRUCache of 128 entries. Both are one class here: a map from key to entry
 * plus the keys in recency order (least recently used first), with an
 * optional time-to-live. A cache without a time-to-live is the LRU cache.
 */
module Caches {
  import opened Wrappers

  /** A cached value and the time at which it expires; the expiry time is
      meaningful only in a cache with a time-to-live. */
  datatype Entry<V> = Entry(value: V, expires: int)

  predicate NoDuplicates<K(==,!new)>(s: seq<K>) {
    forall i, j :: 0 <= i < j < |s| ==> s[i] != s[j]
  }

  lemma NoDuplicatesCons<K(!new)>(x: K, s: seq<K>)
    ensures NoDuplicates([x] + s) <==> x !in s && NoDuplicates(s)
  {
    if x !in s && NoDuplicates(s) {
      forall i, j | 0 <= i < j < |[x] + s| ensures ([x] + s)[i] != ([x] + s)[j] {
        if i > 0 {
          assert ([x] + s)[i] == s[i - 1];
        }
        assert ([x] + s)[j] == s[j - 1];
      }
    }
    if NoDuplicates([x] + s) {
      forall i, j | 0 <= i < j < |s| ensures s[i] != s[j] {
        assert s[i] == ([x] + s)[i + 1];
        assert s[j] == ([x] + s)[j + 1];
      }
      forall j | 0 <= j < |s| ensures s[j] != x {
        assert ([x] + s)[0] == x && ([x] + s)[j + 1] == s[j];
      }
    }
  }

  lemma NoDuplicatesSnoc<K(!new)>(s: seq<K>, x: K)
    ensures NoDuplicates(s + [x]) <==> x !in s && NoDuplicates(s)
  {
    if NoDuplicates(s + [x]) {
      forall i, j | 0 <= i < j < |s| ensures s[i] != s[j] {
        assert s[i] == (s + [x])[i] && s[j] == (s + [x])[j];
      }
      forall i | 0 <= i < |s| ensures s[i] != x {
        assert (s + [x])[i] == s[i] && (s + [x])[|s|] == x;
      }
    }
  }

  /** `r` is `s` with some of its elements left out and the others kept in
      their order; matching greedily from the end decides it. */
  predicate IsSubsequence<K(==)>(r: seq<K>, s: seq<K>)
    decreases |s|
  {
    if r == [] then true
    else if s == [] then false
    else if r[|r| - 1] == s[|s| - 1] then IsSubsequence(r[..|r| - 1], s[..|s| - 1])
    else IsSubsequence(r, s[..|s| - 1])
  }

  /** `s` without `k`, the others kept in order. */
  function Remove<K(==,!new)>(s: seq<K>, k: K): (r: seq<K>)
    ensures forall x :: x in r <==> x in s && x != k
    ensures NoDuplicates(s) ==> NoDuplicates(r)
    ensures NoDuplicates(s) && k in s ==> |r| == |s| - 1
    ensures k !in s ==> r == s
    ensures IsSubsequence(r, s)
    decreases |s|
  {
    if s == [] then []
    else
      var last := s[|s| - 1];
      var init := s[..|s| - 1];
      assert init + [last] == s;
      NoDuplicatesSnoc(init, last);
      NoDuplicatesSnoc(Remove(init, k), last);
      assert (Remove(init, k) + [last])[..|Remove(init, k)|] == Remove(init, k);
      if last == k then Remove(init, k) else Remove(init, k) + [last]
  }

  /** An entry is live when present and, in a cache with a time-to-live,
      not yet expired: cachetools treats an entry as expired once the clock
      reaches its expiry time. */
  predicate LiveIn<K(==,!new), V>(entries: map<K, Entry<V>>, ttl: Option<nat>, k: K, now: int) {
    k in entries && (ttl.None? || now < entries[k].expires)
  }

  /** The keys of `order` whose entries are live at `now`, in the same order. */
  function KeepLive<K(==,!new), V>(order: seq<K>, entries: map<K, Entry<V>>, ttl: Option<nat>, now: int): (r: seq<K>)
    ensures forall x :: x in r <==> x in order && LiveIn(entries, ttl, x, now)
    ensures NoDuplicates(order) ==> NoDuplicates(r)
    ensures |r| <= |order|
    ensures IsSubsequence(r, order)
    decreases |order|
  {
    if order == [] then []
    else
      var last := order[|order| - 1];
      var init := KeepLive(order[..|order| - 1], entries, ttl, now);
      assert order[..|order| - 1] + [last] == order;
      assert (init + [last])[..|init|] == init;
      NoDuplicatesSnoc(order[..|order| - 1], last);
      NoDuplicatesSnoc(init, last);
      if LiveIn(entries, ttl, last, now) then init + [last] else init
  }

  /** A map whose keys are exactly the elements of a duplicate-free
      sequence has as many entries as the sequence. */
  lemma {:induction false} SizeOfKeys<K(!new), V>(m: map<K, V>, s: seq<K>)
    requires NoDuplicates(s)
    requires forall x :: x in m <==> x in s
    ensures |m| == |s|
    decreases |s|
  {
    if s == [] {
      assert m.Keys == {};
    } else {
      var last := s[|s| - 1];
      var init := s[..|s| - 1];
      assert s == init + [last];
      NoDuplicatesSnoc(init, last);
      var rest := m - {last};
      assert forall x :: x in s <==> x in init || x == last;
      assert forall x :: x in rest <==> x in init;
      SizeOfKeys(rest, init);
      assert m.Keys == rest.Keys + {last} && last !in rest.Keys;
      assert |m.Keys| == |rest.Keys| + 1;
    }
  }

  class Cache<K(==,!new), V> {
    /** maxsize: the most entries the cache holds. */
    const capacity: nat
    /** The time-to-live of an entry; None for the LRU cache. */
    const ttl: Option<nat>
    var entries: map<K, Entry<V>>
    /** The cached keys, least recently used first. */
    var order: seq<K>

    ghost predicate Valid()
      reads this
    {
      && capacity >= 1
      && (ttl.Some? ==> ttl.value >= 1)
      && NoDuplicates(order)
      && (forall k :: k in entries <==> k in order)
      && |order| <= capacity
      && |entries| <= capacity
    }

    predicate Live(k: K, now: int)
      reads this
    {
      LiveIn(entries, ttl, k, now)
    }

    /** The expiry time of an entry stored at `now`. */
    function ExpiryAt(now: int): int
      reads this
    {
      if ttl.Some? then now + ttl.value else now
    }

    constructor (capacity: nat, ttl: Option<nat>)
      requires capacity >= 1
      requires ttl.Some? ==> ttl.value >= 1
      ensures Valid()
      ensures this.capacity == capacity && this.ttl == ttl
      ensures entries == map[] && order == []
    {
      this.capacity := capacity;
      this.ttl := ttl;
      entries := map[];
      order := [];
    }

    /** cache[key]: the value when the entry is live, None (KeyError) otherwise.
        A present key becomes the most recently used one, expired or not. */
    method Lookup(key: K, now: int) returns (r: Option<V>)
      requires Valid()
      modifies this
      ensures Valid()
      ensures entries == old(entries)
      ensures r == if old(Live(key, now)) then Some(old(entries)[key].value) else None
      ensures order == if key in entries then Remove(old(order), key) + [key] else old(order)
    {
      if key in entries {
        order := Remove(order, key) + [key];
      }
      r := if Live(key, now) then Some(entries[key].value) else None;
    }

    /** The keys whose entries are live at `now`, scanned in recency order. */
    method LiveKeys(now: int) returns (kept: seq<K>)
      ensures kept == KeepLive(order, entries, ttl, now)
    {
      kept := [];
      var i := 0;
      while i < |order|
        invariant 0 <= i <= |order|
        invariant kept == KeepLive(order[..i], entries, ttl, now)
      {
        var k := order[i];
        assert order[..i + 1][..i] == order[..i];
        if LiveIn(entries, ttl, k, now) {
          kept := kept + [k];
        }
        i := i + 1;
      }
      assert order[..|order|] == order;
    }

    /** expire(now): drops every entry that is no longer live. */
    method Expire(now: int)
      requires Valid()
      modifies this
      ensures Valid()
      ensures order == KeepLive(old(order), old(entries), ttl, now)
      ensures entries == map k | k in order :: old(entries)[k]
      ensures forall k :: k in entries ==> Live(k, now)
    {
      var kept := LiveKeys(now);
      entries := map k | k in kept :: entries[k];
      order := kept;
      SizeOfKeys(entries, order);
    }

    /** popitem: evicts the least recently used entry. */
    method EvictOldest()
      requires Valid()
      requires order != []
      modifies this
      ensures Valid()
      ensures order == old(order)[1..]
      ensures entries == old(entries) - {old(order)[0]}
    {
      var victim := order[0];
      NoDuplicatesCons(victim, order[1..]);
      assert [victim] + order[1..] == order;
      entries := entries - {victim};
      order := order[1..];
      SizeOfKeys(entries, order);
    }

    /** Sets the entry of `key` and makes it the most recently used key; the
        caller has made room for a new key. */
    method Put(key: K, value: V, now: int)
      requires Valid()
      requires key in entries || |order| < capacity
      modifies this
      ensures Valid()
      ensures entries == old(entries)[key := Entry(value, ExpiryAt(now))]
      ensures order == Remove(old(order), key) + [key]
    {
      entries := entries[key := Entry(value, ExpiryAt(now))];
      NoDuplicatesSnoc(Remove(order, key), key);
      order := Remove(order, key) + [key];
      SizeOfKeys(entries, order);
    }

    /** cache[key] = value: a TTL cache first expires stale entries; when the
        key is new and the cache is full, the least recently used entry is
        evicted (popitem); the key then becomes the most recently used one. */
    method Store(key: K, value: V, now: int)
      requires Valid()
      modifies this
      ensures Valid()
      ensures Live(key, now) && entries[key] == Entry(value, ExpiryAt(now))
      ensures var kept := if ttl.Some? then KeepLive(old(order), old(entries), ttl, now) else old(order);
              var room := if key !in kept && |kept| == capacity then kept[1..] else kept;
              order == Remove(room, key) + [key]
      ensures order != [] && order[|order| - 1] == key
      ensures forall k :: k in entries && k != key ==>
                k in old(entries) && entries[k] == old(entries)[k] && old(Live(k, now))
      ensures old(|order|) < capacity ==>
                forall k :: k != key && old(Live(k, now)) ==> k in entries && entries[k] == old(entries)[k]
    {
      ghost var kept := if ttl.Some? then KeepLive(order, entries, ttl, now) else order;
      if ttl.Some? {
        Expire(now);
      }
      assert order == kept;
      assert forall k :: k in entries ==> k in old(entries) && entries[k] == old(entries)[k] && old(Live(k, now));
      ghost var room := if key !in kept && |kept| == capacity then kept[1..] else kept;
      if key !in entries && |order| == capacity {
        EvictOldest();
      }
      assert order == room;
      Put(key, value, now);
    }
  }
}

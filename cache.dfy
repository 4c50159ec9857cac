/** The Redis-backed cache (`CacheManager`). The Redis database is the
    `store` field: a map from key to the stored JSON text and the instant it
    expires. Clock readings, the MD5 digest and the failures of Redis calls
    are parameters. Every operation is a no-op (a miss, for `Get`) unless the
    manager is enabled and has a client, and a failing Redis call is
    swallowed. */
module Cache {
  import opened Seqs

  /** A stored value: the JSON text and the instant from which it is gone. */
  datatype Entry = Entry(text: string, expiresAt: int)

  /** How `connect` ends: `redis.from_url` raises, the `ping` raises after
      the client was created, or both succeed. */
  datatype ConnectOutcome = FromUrlFails | PingFails | Connected

  /** `f"{prefix}:{md5(data).hexdigest()}"` */
  function MakeKey(prefix: string, data: string, md5Hex: string -> string): (key: string)
    ensures prefix + ":" <= key
    ensures key[|prefix| + 1..] == md5Hex(data)
  {
    prefix + ":" + md5Hex(data)
  }

  /** With fixed-length digests, a key determines its prefix and digest. */
  lemma MakeKeyInjective(p1: string, d1: string, p2: string, d2: string, md5Hex: string -> string)
    requires |md5Hex(d1)| == |md5Hex(d2)|
    requires MakeKey(p1, d1, md5Hex) == MakeKey(p2, d2, md5Hex)
    ensures p1 == p2 && md5Hex(d1) == md5Hex(d2)
  {
    var key := MakeKey(p1, d1, md5Hex);
    assert |p1| == |p2|;
    assert p1 == key[..|p1|] == p2;
  }

  /** A key matches the pattern `prefix:*` (glob metacharacters in the prefix
      not modelled). */
  predicate MatchesPrefix(key: string, prefix: string)
  {
    prefix + ":" <= key
  }

  /** Clearing one prefix never touches the keys of another prefix, as long
      as neither holds a colon. */
  lemma OtherPrefixUntouched(p: string, q: string, data: string, md5Hex: string -> string)
    requires ':' !in p && ':' !in q && p != q
    ensures !MatchesPrefix(MakeKey(q, data, md5Hex), p)
  {
    var key := MakeKey(q, data, md5Hex);
    if |p| < |q| {
      assert key[|p|] == q[|p|];
    } else if |p| > |q| {
      assert key[|q|] == ':';
    } else {
      assert key[..|q|] == q;
    }
  }

  /** What Redis `GET` returns at instant `now`. */
  function Lookup(store: map<string, Entry>, key: string, now: int): (r: Option<string>)
    ensures r.Some? <==> key in store && now < store[key].expiresAt
    ensures r.Some? ==> r.value == store[key].text
  {
    if key in store && now < store[key].expiresAt then Some(store[key].text) else None
  }

  /** The cached JSON text `get` decodes: a miss and an empty text both give
      `None`. */
  function Cached(store: map<string, Entry>, key: string, now: int): (r: Option<string>)
    ensures r.Some? ==> r.value != "" && Lookup(store, key, now) == r
    ensures Lookup(store, key, now).Some? && Lookup(store, key, now).value != "" ==> r.Some?
  {
    var v := Lookup(store, key, now);
    if v.Some? && v.value != "" then v else None
  }

  /** `SETEX key ttl text`; Redis rejects a non-positive ttl, and the error is
      swallowed. */
  function AfterSet(store: map<string, Entry>, key: string, text: string, ttl: int, now: int): (r: map<string, Entry>)
    ensures ttl <= 0 ==> r == store
    ensures ttl > 0 ==> key in r && r[key] == Entry(text, now + ttl)
    ensures forall k :: k != key ==> (k in r <==> k in store) && (k in r ==> r[k] == store[k])
  {
    if ttl > 0 then store[key := Entry(text, now + ttl)] else store
  }

  function AfterDelete(store: map<string, Entry>, key: string): (r: map<string, Entry>)
    ensures key !in r
    ensures forall k :: k != key ==> (k in r <==> k in store) && (k in r ==> r[k] == store[k])
  {
    map k | k in store && k != key :: store[k]
  }

  /** The keys `SCAN MATCH prefix:*` visits. */
  function MatchingKeys(store: map<string, Entry>, prefix: string): (r: set<string>)
    ensures forall k :: k in r <==> k in store && MatchesPrefix(k, prefix)
  {
    set k | k in store && MatchesPrefix(k, prefix)
  }

  function WithoutPrefix(store: map<string, Entry>, prefix: string): (r: map<string, Entry>)
    ensures forall k :: k in r <==> k in store && !MatchesPrefix(k, prefix)
    ensures forall k :: k in r ==> r[k] == store[k]
  {
    map k | k in store && !MatchesPrefix(k, prefix) :: store[k]
  }

  /** A value set with a positive ttl is read back until the ttl elapses,
      and not after. */
  lemma SetThenGet(store: map<string, Entry>, key: string, text: string, ttl: int, now: int, later: int)
    requires ttl > 0 && text != "" && now <= later
    ensures later < now + ttl ==> Cached(AfterSet(store, key, text, ttl, now), key, later) == Some(text)
    ensures later >= now + ttl ==> Cached(AfterSet(store, key, text, ttl, now), key, later) == None
  {
  }

  /** Setting, deleting or clearing never changes what another key reads. */
  lemma OtherKeysUnchanged(store: map<string, Entry>, key: string, other: string, text: string,
                           ttl: int, now: int, later: int)
    requires other != key
    ensures Cached(AfterSet(store, key, text, ttl, now), other, later) == Cached(store, other, later)
    ensures Cached(AfterDelete(store, key), other, later) == Cached(store, other, later)
  {
  }

  /** After a delete, or after clearing its prefix, a key reads as a miss. */
  lemma RemovedKeyMisses(store: map<string, Entry>, key: string, prefix: string, now: int)
    ensures Cached(AfterDelete(store, key), key, now) == None
    ensures MatchesPrefix(key, prefix) ==> Cached(WithoutPrefix(store, prefix), key, now) == None
    ensures !MatchesPrefix(key, prefix) ==> Cached(WithoutPrefix(store, prefix), key, now) == Cached(store, key, now)
  {
  }

  /** `CACHE_TTL`, in seconds. */
  function CacheTtl(kind: string): (r: Option<int>)
    ensures r.Some? <==> kind in {"search", "llm_response", "embedding", "stats"}
    ensures r.Some? ==> r.value > 0
  {
    if kind == "search" then Some(3600)
    else if kind == "llm_response" then Some(7200)
    else if kind == "embedding" then Some(86400)
    else if kind == "stats" then Some(300)
    else None
  }

  /** Statistics live shortest, then search results, then answers, and
      embeddings a whole day. */
  lemma CacheTtlOrder()
    ensures CacheTtl("stats").value < CacheTtl("search").value
            < CacheTtl("llm_response").value < CacheTtl("embedding").value
    ensures CacheTtl("embedding").value == 24 * CacheTtl("search").value
  {
  }

  class CacheManager {
    var enabled: bool
    /** `self.client is not None` */
    var hasClient: bool
    /** The Redis database the client talks to. */
    var store: map<string, Entry>
    const md5Hex: string -> string

    /** `CacheManager()`: enabled exactly when the Redis library imports. */
    constructor (redisAvailable: bool, md5Hex: string -> string, store: map<string, Entry>)
      ensures enabled == redisAvailable && !hasClient
      ensures this.store == store && this.md5Hex == md5Hex
    {
      enabled := redisAvailable;
      hasClient := false;
      this.store := store;
      this.md5Hex := md5Hex;
    }

    /** Calls reach Redis only when enabled and connected. */
    predicate Active()
      reads this
    {
      enabled && hasClient
    }

    /** `connect`: a failure disables the cache; a failed ping leaves the
        client in place. */
    method Connect(outcome: ConnectOutcome)
      modifies this
      ensures store == old(store)
      ensures !old(enabled) ==> !enabled && hasClient == old(hasClient)
      ensures old(enabled) ==> (enabled <==> outcome == Connected)
      ensures old(enabled) ==> hasClient == (old(hasClient) || outcome != FromUrlFails)
    {
      if !enabled {
        return;
      }
      if outcome == FromUrlFails {
        enabled := false;
        return;
      }
      hasClient := true;
      if outcome == PingFails {
        enabled := false;
      }
    }

    /** `get(prefix, key_data)`: the cached JSON text, or `None` on a miss,
        when inactive, or when Redis fails. */
    method Get(prefix: string, keyData: string, now: int, fails: bool) returns (r: Option<string>)
      ensures r == if Active() && !fails then Cached(store, MakeKey(prefix, keyData, md5Hex), now) else None
    {
      if !enabled || !hasClient {
        return None;
      }
      if fails {
        return None;
      }
      var cacheKey := MakeKey(prefix, keyData, md5Hex);
      var value := Lookup(store, cacheKey, now);
      if value.Some? && value.value != "" {
        return value;
      }
      return None;
    }

    /** `set(prefix, key_data, value, ttl)`, with `text` the JSON dump of the
        value. */
    method Set(prefix: string, keyData: string, text: string, ttl: int, now: int, fails: bool)
      modifies this`store
      ensures store == if old(Active()) && !fails
                       then AfterSet(old(store), MakeKey(prefix, keyData, md5Hex), text, ttl, now)
                       else old(store)
    {
      if !enabled || !hasClient {
        return;
      }
      if fails {
        return;
      }
      var cacheKey := MakeKey(prefix, keyData, md5Hex);
      if ttl > 0 {
        store := store[cacheKey := Entry(text, now + ttl)];
      }
    }

    method Delete(prefix: string, keyData: string, fails: bool)
      modifies this`store
      ensures store == if old(Active()) && !fails
                       then AfterDelete(old(store), MakeKey(prefix, keyData, md5Hex))
                       else old(store)
    {
      if !enabled || !hasClient {
        return;
      }
      if fails {
        return;
      }
      var cacheKey := MakeKey(prefix, keyData, md5Hex);
      store := AfterDelete(store, cacheKey);
    }

    /** `clear_prefix(prefix)`: scans the keys matching `prefix:*` and deletes
        them one by one; a Redis failure after `failAfter` deletions ends the
        scan, keeping the deletions made so far. */
    method ClearPrefix(prefix: string, failAfter: nat)
      modifies this`store
      ensures !old(Active()) ==> store == old(store)
      ensures forall k :: k in store ==> k in old(store) && store[k] == old(store)[k]
      ensures forall k :: k in old(store) && k !in store ==> MatchesPrefix(k, prefix)
      ensures old(Active()) && failAfter >= |MatchingKeys(old(store), prefix)|
              ==> store == WithoutPrefix(old(store), prefix)
    {
      if !enabled || !hasClient {
        return;
      }
      var matching := MatchingKeys(store, prefix);
      var deleted: nat := 0;
      while matching != {}
        invariant matching <= store.Keys
        invariant forall k :: k in matching ==> MatchesPrefix(k, prefix)
        invariant forall k :: k in store ==> k in old(store) && store[k] == old(store)[k]
        invariant forall k :: k in old(store) && k !in store ==> MatchesPrefix(k, prefix)
        invariant forall k :: k in old(store) && MatchesPrefix(k, prefix) && k in store ==> k in matching
        invariant deleted + |matching| == |MatchingKeys(old(store), prefix)|
        decreases |matching|
      {
        if deleted == failAfter {
          return;
        }
        var key :| key in matching;
        store := AfterDelete(store, key);
        matching := matching - {key};
        deleted := deleted + 1;
      }
    }
  }
}

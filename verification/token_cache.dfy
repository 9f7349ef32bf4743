/**
 * `TokenCache` (app/core/token_cache.py): validated token claims kept in a
 * memory dictionary and, when Redis is configured, in Redis as well, both
 * keyed by the token's digest and carrying an absolute expiry time.
 * Redis is modelled as a second dictionary the cache reads and writes;
 * the clock is the `now` argument of each call.
 */
module TokenCache {
  import opened Text

  /**
   * `token_key`: the SHA-256 hex digest of the token. Distinct tokens are
   * taken to have distinct digests, which the constructor gives for free.
   */
  datatype Digest = Sha256(token: string)

  function TokenKey(token: string): (d: Digest)
    ensures d.token == token
  {
    Sha256(token)
  }

  /** The claims a validator returned for a token. */
  type Claims = seq<(string, string)>

  /** A cache entry: `{"value": ..., "expires_at": ...}`. */
  datatype Item = Item(value: Claims, expiresAt: int)

  /** An entry is still good while its expiry lies in the future. */
  predicate Live(item: Item, now: int) {
    item.expiresAt > now
  }

  /** Whether an entry for k is still good in a store. */
  predicate LiveIn(store: map<Digest, Item>, k: Digest, now: int) {
    k in store && Live(store[k], now)
  }

  /** What `get` returns: the memory entry if it is live, else a live Redis entry, else None. */
  function Lookup(memory: map<Digest, Item>, redis: Option<map<Digest, Item>>, k: Digest, now: int): Option<Claims> {
    if LiveIn(memory, k, now) then Some(memory[k].value)
    else if redis.Some? && LiveIn(redis.value, k, now) then Some(redis.value[k].value)
    else None
  }

  /** The memory after `get`: a live Redis entry behind a memory miss is copied in; nothing is removed. */
  function MemoryAfterGet(memory: map<Digest, Item>, redis: Option<map<Digest, Item>>, k: Digest, now: int): map<Digest, Item> {
    if LiveIn(memory, k, now) then memory
    else if redis.Some? && LiveIn(redis.value, k, now) then memory[k := redis.value[k]]
    else memory
  }

  /** Redis after `set`: the entry is written there too when Redis is configured. */
  function RedisAfterSet(redis: Option<map<Digest, Item>>, k: Digest, item: Item): Option<map<Digest, Item>> {
    match redis
    case None => None
    case Some(store) => Some(store[k := item])
  }

  class TokenCache {
    var memory: map<Digest, Item>
    /** The Redis entries under `jwt:<digest>`; None when no Redis URL is configured. */
    var redis: Option<map<Digest, Item>>

    /**
     * `TokenCache(redis_url)`: an empty memory tier, and a connection to the
     * Redis server when a URL is given. `server` is that server's `jwt:`
     * entries at connection time (other processes may have written them),
     * or None without a URL.
     */
    constructor(server: Option<map<Digest, Item>>)
      ensures memory == map[]
      ensures redis == server
    {
      memory := map[];
      redis := server;
    }

    /** `get(token)` at time `now`. */
    method Get(token: string, now: int) returns (r: Option<Claims>)
      modifies this
      ensures r == Lookup(old(memory), old(redis), TokenKey(token), now)
      ensures memory == MemoryAfterGet(old(memory), old(redis), TokenKey(token), now)
      ensures redis == old(redis)
    {
      var key := TokenKey(token);
      if key in memory && memory[key].expiresAt > now {
        return Some(memory[key].value);
      }
      if redis.Some? && key in redis.value {
        var data := redis.value[key];
        if data.expiresAt > now {
          memory := memory[key := data];
          return Some(data.value);
        }
      }
      return None;
    }

    /** `set(token, value, expires_in)` at time `now`: both tiers get the same entry. */
    method Set(token: string, value: Claims, expiresIn: int, now: int)
      modifies this
      ensures memory == old(memory)[TokenKey(token) := Item(value, now + expiresIn)]
      ensures redis == RedisAfterSet(old(redis), TokenKey(token), Item(value, now + expiresIn))
    {
      var key := TokenKey(token);
      var item := Item(value, now + expiresIn);
      memory := memory[key := item];
      if redis.Some? {
        redis := Some(redis.value[key := item]);
      }
    }
  }

  // ---------- properties ----------

  /** Set at time t, then get before t + e: the value that was set comes back. */
  lemma SetThenGet(memory: map<Digest, Item>, redis: Option<map<Digest, Item>>, token: string,
                   value: Claims, expiresIn: int, t: int, now: int)
    requires now < t + expiresIn
    ensures var item := Item(value, t + expiresIn);
      Lookup(memory[TokenKey(token) := item], RedisAfterSet(redis, TokenKey(token), item), TokenKey(token), now) == Some(value)
  {
  }

  /** Set at time t, then get from t + e on: the entry has expired in both tiers and nothing comes back. */
  lemma SetThenExpire(memory: map<Digest, Item>, redis: Option<map<Digest, Item>>, token: string,
                      value: Claims, expiresIn: int, t: int, now: int)
    requires now >= t + expiresIn
    ensures var item := Item(value, t + expiresIn);
      Lookup(memory[TokenKey(token) := item], RedisAfterSet(redis, TokenKey(token), item), TokenKey(token), now) == None
  {
  }

  /** Setting one token changes nothing that a get of another token sees or does. */
  lemma SetLeavesOtherTokens(memory: map<Digest, Item>, redis: Option<map<Digest, Item>>, token: string, other: string,
                             item: Item, now: int)
    requires other != token
    ensures Lookup(memory[TokenKey(token) := item], RedisAfterSet(redis, TokenKey(token), item), TokenKey(other), now)
         == Lookup(memory, redis, TokenKey(other), now)
    ensures MemoryAfterGet(memory[TokenKey(token) := item], RedisAfterSet(redis, TokenKey(token), item), TokenKey(other), now)
         == MemoryAfterGet(memory, redis, TokenKey(other), now)[TokenKey(token) := item]
  {
  }

  /** `get` removes no entry, expired or not, and changes no entry but the one it looked up. */
  lemma GetRemovesNothing(memory: map<Digest, Item>, redis: Option<map<Digest, Item>>, k: Digest, now: int)
    ensures memory.Keys <= MemoryAfterGet(memory, redis, k, now).Keys
    ensures forall j :: j in memory && j != k ==> MemoryAfterGet(memory, redis, k, now)[j] == memory[j]
  {
  }

  /** A memory hit returns the memory value and leaves the cache as it was. */
  lemma MemoryHit(memory: map<Digest, Item>, redis: Option<map<Digest, Item>>, k: Digest, now: int)
    requires LiveIn(memory, k, now)
    ensures Lookup(memory, redis, k, now) == Some(memory[k].value)
    ensures MemoryAfterGet(memory, redis, k, now) == memory
  {
  }

  /** Without Redis a missing or expired memory entry gives None. */
  lemma MissWithoutRedis(memory: map<Digest, Item>, k: Digest, now: int)
    requires !LiveIn(memory, k, now)
    ensures Lookup(memory, None, k, now) == None
    ensures MemoryAfterGet(memory, None, k, now) == memory
  {
  }

  /** A live Redis entry behind a memory miss is returned and copied into memory. */
  lemma RedisHitCopied(memory: map<Digest, Item>, store: map<Digest, Item>, k: Digest, now: int)
    requires !LiveIn(memory, k, now) && LiveIn(store, k, now)
    ensures Lookup(memory, Some(store), k, now) == Some(store[k].value)
    ensures MemoryAfterGet(memory, Some(store), k, now) == memory[k := store[k]]
  {
  }

  /** Expired Redis data is neither returned nor copied. */
  lemma ExpiredRedisIgnored(memory: map<Digest, Item>, store: map<Digest, Item>, k: Digest, now: int)
    requires !LiveIn(memory, k, now) && k in store && !Live(store[k], now)
    ensures Lookup(memory, Some(store), k, now) == None
    ensures MemoryAfterGet(memory, Some(store), k, now) == memory
  {
  }

  /** A second get at the same time returns the same and changes nothing more. */
  lemma GetTwice(memory: map<Digest, Item>, redis: Option<map<Digest, Item>>, k: Digest, now: int)
    ensures var after := MemoryAfterGet(memory, redis, k, now);
      && Lookup(after, redis, k, now) == Lookup(memory, redis, k, now)
      && MemoryAfterGet(after, redis, k, now) == after
  {
  }
}

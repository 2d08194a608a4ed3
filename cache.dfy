/** The cache service: a best-effort key/value cache over either a shared
    Redis server or an in-process memory cache, with a one-way degrade from
    Redis to memory when the Redis client reports an error.

    The two stores are maps from key to entry; time is the parameter `now`
    and a backend call that raises an error is the parameter `fault`. */
module Cache {
  import opened Common

  /** Default lifetime, in seconds, of a memory-cache entry stored without an
      explicit ttl (`stdTTL` of the memory cache). */
  const StdTtl: nat := 3600

  /** Upper bound, in milliseconds, of the Redis reconnection delay. */
  const MaxRetryDelay: nat := 2000

  /** Delay before the `times`-th Redis reconnection attempt: 50 ms per
      attempt, capped at two seconds. */
  function RetryDelay(times: nat): (d: nat)
    ensures d <= MaxRetryDelay
    ensures d <= 50 * times
    ensures d == MaxRetryDelay || d == 50 * times
  {
    if 50 * times < MaxRetryDelay then 50 * times else MaxRetryDelay
  }

  /** More attempts never shorten the delay. */
  lemma RetryDelayMonotone(a: nat, b: nat)
    requires a <= b
    ensures RetryDelay(a) <= RetryDelay(b)
  {
  }

  const KeyPrefix := "enterprise:"
  const KeySuffix := ":version_tag"

  /** The cache key under which a tenant's version tag is kept. */
  function VersionKey(enterpriseId: string): (k: string)
    ensures |k| == |KeyPrefix| + |enterpriseId| + |KeySuffix|
    ensures k[..|KeyPrefix|] == KeyPrefix
    ensures k[|KeyPrefix|..|KeyPrefix| + |enterpriseId|] == enterpriseId
    ensures k[|KeyPrefix| + |enterpriseId|..] == KeySuffix
  {
    KeyPrefix + enterpriseId + KeySuffix
  }

  /** Distinct tenants never share a cache key. */
  lemma {:induction false} VersionKeyInjective(a: string, b: string)
    requires VersionKey(a) == VersionKey(b)
    ensures a == b
  {
    var k := VersionKey(a);
    assert |a| == |b|;
    assert a == k[|KeyPrefix|..|KeyPrefix| + |a|];
    assert b == VersionKey(b)[|KeyPrefix|..|KeyPrefix| + |b|];
  }

  /** A stored value and the instant it expires at (`None`: never). */
  datatype Entry = Entry(value: string, expiresAt: Option<int>)

  /** An entry is served until its expiry instant. */
  predicate Live(e: Entry, now: int)
  {
    e.expiresAt.None? || now < e.expiresAt.value
  }

  /** Which store a call goes to. */
  datatype Backend = RedisBackend | MemoryBackend | NoBackend

  /** The fields of the cache service: the `useRedis` flag, whether a Redis
      client and a memory cache have been created, and the two stores. */
  datatype CacheState = CacheState(
    useRedis: bool,
    redisClient: bool,
    memoryCache: bool,
    redis: map<string, Entry>,
    memory: map<string, Entry>)

  /** Every operation first tries Redis, then the memory cache. */
  function Active(s: CacheState): (b: Backend)
    ensures b == RedisBackend <==> s.useRedis && s.redisClient
    ensures b == MemoryBackend <==> !(s.useRedis && s.redisClient) && s.memoryCache
    ensures b == NoBackend <==> !(s.useRedis && s.redisClient) && !s.memoryCache
  {
    if s.useRedis && s.redisClient then RedisBackend
    else if s.memoryCache then MemoryBackend
    else NoBackend
  }

  /** The service is on Redis (and has no memory cache yet) or on memory. */
  ghost predicate Valid(s: CacheState)
  {
    && (s.useRedis ==> s.redisClient && !s.memoryCache)
    && (!s.useRedis ==> s.memoryCache)
  }

  /** The state right after construction, as the `useRedis` setting chooses. */
  function Initial(useRedis: bool): (s: CacheState)
    ensures Valid(s)
    ensures Active(s) == if useRedis then RedisBackend else MemoryBackend
    ensures s.redis == map[] && s.memory == map[]
  {
    if useRedis then CacheState(true, true, false, map[], map[])
    else CacheState(false, false, true, map[], map[])
  }

  /** The Redis `error` handler: the first error creates the memory cache and
      leaves Redis for good; later errors change nothing. */
  function Degrade(s: CacheState): (t: CacheState)
    ensures t.memoryCache
    ensures Valid(s) ==> !t.useRedis && Active(t) == MemoryBackend && Valid(t)
    ensures s.memoryCache ==> t == s
    ensures !s.memoryCache ==> t.memory == map[] && t.redis == s.redis
  {
    if !s.memoryCache then s.(memoryCache := true, useRedis := false, memory := map[])
    else s
  }

  /** A second error is a no-op. */
  lemma DegradeIdempotent(s: CacheState)
    ensures Degrade(Degrade(s)) == Degrade(s)
  {
  }

  /** The result of `get`: Redis returns what it holds; the memory cache
      turns a falsy value into `null`; errors and a missing backend give
      `null`. */
  function Read(s: CacheState, key: string, now: int, fault: bool): (r: Option<string>)
    ensures r.Some? ==> !fault && Active(s) != NoBackend
    ensures r.Some? && Active(s) == RedisBackend ==>
              key in s.redis && Live(s.redis[key], now) && r.value == s.redis[key].value
    ensures r.Some? && Active(s) == MemoryBackend ==>
              key in s.memory && Live(s.memory[key], now) && r.value == s.memory[key].value && r.value != ""
  {
    if fault then None
    else match Active(s)
      case RedisBackend =>
        if key in s.redis && Live(s.redis[key], now) then Some(s.redis[key].value) else None
      case MemoryBackend =>
        if key in s.memory && Live(s.memory[key], now) && s.memory[key].value != ""
        then Some(s.memory[key].value) else None
      case NoBackend => None
  }

  /** When an entry written at `now` with `ttl` expires: a falsy ttl means
      "no explicit ttl", which Redis keeps forever and the memory cache keeps
      for its standard lifetime. */
  function Expiry(b: Backend, ttl: nat, now: int): (e: Option<int>)
    ensures ttl > 0 ==> e == Some(now + ttl)
    ensures ttl == 0 && b == RedisBackend ==> e == None
    ensures ttl == 0 && b != RedisBackend ==> e == Some(now + StdTtl)
  {
    if ttl > 0 then Some(now + ttl)
    else if b == RedisBackend then None
    else Some(now + StdTtl)
  }

  /** `set`: stores the entry in the active backend and answers whether a
      backend handled the call. */
  function Write(s: CacheState, key: string, value: string, ttl: nat, now: int, fault: bool)
    : (res: (CacheState, bool))
    ensures res.1 <==> !fault && Active(s) != NoBackend
    ensures Active(res.0) == Active(s)
    ensures !res.1 ==> res.0 == s
    ensures Active(s) == RedisBackend && res.1 ==>
              res.0 == s.(redis := s.redis[key := Entry(value, Expiry(RedisBackend, ttl, now))])
    ensures Active(s) == MemoryBackend && res.1 ==>
              res.0 == s.(memory := s.memory[key := Entry(value, Expiry(MemoryBackend, ttl, now))])
  {
    if fault then (s, false)
    else match Active(s)
      case RedisBackend =>
        (s.(redis := s.redis[key := Entry(value, Expiry(RedisBackend, ttl, now))]), true)
      case MemoryBackend =>
        (s.(memory := s.memory[key := Entry(value, Expiry(MemoryBackend, ttl, now))]), true)
      case NoBackend => (s, false)
  }

  /** `delete`: removes the key from the active backend and answers whether a
      backend handled the call. */
  function Erase(s: CacheState, key: string, fault: bool): (res: (CacheState, bool))
    ensures res.1 <==> !fault && Active(s) != NoBackend
    ensures Active(res.0) == Active(s)
    ensures !res.1 ==> res.0 == s
    ensures Active(s) == RedisBackend && res.1 ==> res.0 == s.(redis := s.redis - {key})
    ensures Active(s) == MemoryBackend && res.1 ==> res.0 == s.(memory := s.memory - {key})
  {
    if fault then (s, false)
    else match Active(s)
      case RedisBackend => (s.(redis := s.redis - {key}), true)
      case MemoryBackend => (s.(memory := s.memory - {key}), true)
      case NoBackend => (s, false)
  }

  /** A valid service always has a backend, so `set` and `delete` fail only
      when the backend raises an error. */
  lemma ValidHasBackend(s: CacheState, key: string, value: string, ttl: nat, now: int, fault: bool)
    requires Valid(s)
    ensures Active(s) != NoBackend
    ensures Write(s, key, value, ttl, now, fault).1 == !fault
    ensures Erase(s, key, fault).1 == !fault
  {
  }

  /** `set`, `delete` and the error handler keep the service valid, and none
      of them ever switches back to Redis once it has left it. */
  lemma NeverPromoted(s: CacheState, key: string, value: string, ttl: nat, now: int, fault: bool)
    requires Valid(s)
    ensures Valid(Write(s, key, value, ttl, now, fault).0)
    ensures Valid(Erase(s, key, fault).0)
    ensures !s.useRedis ==> !Write(s, key, value, ttl, now, fault).0.useRedis
    ensures !s.useRedis ==> !Erase(s, key, fault).0.useRedis
    ensures !s.useRedis ==> !Degrade(s).useRedis
    ensures s.memoryCache ==> Write(s, key, value, ttl, now, fault).0.memoryCache
    ensures s.memoryCache ==> Erase(s, key, fault).0.memoryCache
  {
  }

  /** Set, then get before expiry: the stored value comes back, except that
      the memory cache reads a falsy value back as `null`. */
  lemma {:induction false} WriteThenRead(s: CacheState, key: string, value: string, ttl: nat, now: int, later: int)
    requires Active(s) != NoBackend
    requires Live(Entry(value, Expiry(Active(s), ttl, now)), later)
    ensures Read(Write(s, key, value, ttl, now, false).0, key, later, false)
            == if Active(s) == MemoryBackend && value == "" then None else Some(value)
  {
    var t := Write(s, key, value, ttl, now, false).0;
    if Active(s) == RedisBackend {
      assert t.redis[key] == Entry(value, Expiry(Active(s), ttl, now));
    } else {
      assert t.memory[key] == Entry(value, Expiry(Active(s), ttl, now));
    }
  }

  /** After a handled delete the key reads as `null`. */
  lemma EraseThenRead(s: CacheState, key: string, now: int, fault: bool)
    requires Active(s) != NoBackend
    ensures Read(Erase(s, key, false).0, key, now, fault) == None
  {
  }

  /** `set` and `delete` on one key leave every other key as it reads. */
  lemma {:induction false} OtherKeysUnchanged(s: CacheState, key: string, other: string, value: string, ttl: nat,
                                              now: int, later: int, f1: bool, f2: bool)
    requires other != key
    ensures Read(Write(s, key, value, ttl, now, f1).0, other, later, f2) == Read(s, other, later, f2)
    ensures Read(Erase(s, key, f1).0, other, later, f2) == Read(s, other, later, f2)
  {
    var w := Write(s, key, value, ttl, now, f1).0;
    var e := Erase(s, key, f1).0;
    assert w.redis == s.redis || w.redis == s.redis[key := Entry(value, Expiry(RedisBackend, ttl, now))];
    assert w.memory == s.memory || w.memory == s.memory[key := Entry(value, Expiry(MemoryBackend, ttl, now))];
    assert Active(w) == Active(s) && Active(e) == Active(s);
  }

  /** The cache service object. */
  class CacheService {
    var useRedis: bool
    var redisClient: bool
    var memoryCache: bool
    var redis: map<string, Entry>
    var memory: map<string, Entry>

    /** The fields as one value. */
    function State(): CacheState
      reads this
    {
      CacheState(useRedis, redisClient, memoryCache, redis, memory)
    }

    /** Chooses the backend from the `useRedis` setting. */
    constructor (useRedisSetting: bool)
      ensures State() == Initial(useRedisSetting)
    {
      memoryCache, redisClient := false, false;
      redis, memory := map[], map[];
      useRedis := useRedisSetting;
      if useRedisSetting {
        redisClient := true;
      } else {
        memoryCache := true;
      }
    }

    /** The Redis client's `error` event. */
    method OnRedisError()
      modifies this
      ensures State() == Degrade(old(State()))
    {
      if !memoryCache {
        memoryCache := true;
        memory := map[];
        useRedis := false;
      }
    }

    method Get(key: string, now: int, fault: bool) returns (r: Option<string>)
      ensures r == Read(State(), key, now, fault)
    {
      if fault {
        return None;
      }
      if useRedis && redisClient {
        if key in redis && Live(redis[key], now) {
          r := Some(redis[key].value);
        } else {
          r := None;
        }
      } else if memoryCache {
        if key in memory && Live(memory[key], now) && memory[key].value != "" {
          r := Some(memory[key].value);
        } else {
          r := None;
        }
      } else {
        r := None;
      }
    }

    method Set(key: string, value: string, ttl: nat, now: int, fault: bool) returns (ok: bool)
      modifies this
      ensures (State(), ok) == Write(old(State()), key, value, ttl, now, fault)
    {
      if fault {
        return false;
      }
      if useRedis && redisClient {
        redis := redis[key := Entry(value, Expiry(RedisBackend, ttl, now))];
        ok := true;
      } else if memoryCache {
        memory := memory[key := Entry(value, Expiry(MemoryBackend, ttl, now))];
        ok := true;
      } else {
        ok := false;
      }
    }

    method Delete(key: string, fault: bool) returns (ok: bool)
      modifies this
      ensures (State(), ok) == Erase(old(State()), key, fault)
    {
      if fault {
        return false;
      }
      if useRedis && redisClient {
        redis := redis - {key};
        ok := true;
      } else if memoryCache {
        memory := memory - {key};
        ok := true;
      } else {
        ok := false;
      }
    }

    /** The cached version tag of a tenant. */
    method GetVersionTag(enterpriseId: string, now: int, fault: bool) returns (r: Option<string>)
      ensures r == Read(State(), VersionKey(enterpriseId), now, fault)
    {
      r := Get(VersionKey(enterpriseId), now, fault);
    }

    /** Caches a tenant's version tag. */
    method SetVersionTag(enterpriseId: string, versionTag: string, ttl: nat, now: int, fault: bool)
      returns (ok: bool)
      modifies this
      ensures (State(), ok) == Write(old(State()), VersionKey(enterpriseId), versionTag, ttl, now, fault)
    {
      ok := Set(VersionKey(enterpriseId), versionTag, ttl, now, fault);
    }
  }
}

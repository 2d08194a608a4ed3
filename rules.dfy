/** The rule engine: the authoritative tenant -> version-tag table, read
    cache-aside through the cache service and written through to it. */
module Rules {
  import opened Common
  import Cache

  /** The tenant whose rule every unmapped tenant falls back to. */
  const DefaultTenant := "default"

  /** Lifetime, in seconds, of a cached version tag. */
  const RuleTtl: nat := 3600

  /** The table the engine starts with. */
  const Seed: map<string, string> := map[
    "enterprise-a" := "2.0.0-beta",
    "enterprise-b" := "1.8.0-stable",
    DefaultTenant := "1.8.0-stable"]

  /** `rules[id] || rules['default']`. */
  function TableLookup(rules: map<string, string>, enterpriseId: string): (tag: string)
    requires DefaultTenant in rules
    ensures tag in rules.Values
    ensures enterpriseId in rules && rules[enterpriseId] != "" ==> tag == rules[enterpriseId]
    ensures tag == rules[DefaultTenant] || (enterpriseId in rules && tag == rules[enterpriseId])
    ensures rules[DefaultTenant] != "" ==> tag != ""
  {
    if enterpriseId in rules && rules[enterpriseId] != "" then rules[enterpriseId]
    else rules[DefaultTenant]
  }

  /** `getVersionTag`: the resolved tag and the cache afterwards. A truthy
      cached tag is returned as is; otherwise the table is read and the
      result is cached for `RuleTtl` seconds. */
  function Resolve(rules: map<string, string>, cs: Cache.CacheState, enterpriseId: string,
                   now: int, getFault: bool, setFault: bool): (r: (string, Cache.CacheState))
    requires DefaultTenant in rules
    ensures Cache.Active(r.1) == Cache.Active(cs)
    ensures Truthy(Cache.Read(cs, Cache.VersionKey(enterpriseId), now, getFault)) ==>
              r == (Cache.Read(cs, Cache.VersionKey(enterpriseId), now, getFault).value, cs)
    ensures !Truthy(Cache.Read(cs, Cache.VersionKey(enterpriseId), now, getFault)) ==>
              r.0 in rules.Values && r.0 == TableLookup(rules, enterpriseId)
    ensures !Truthy(Cache.Read(cs, Cache.VersionKey(enterpriseId), now, getFault)) ==>
              r.1 == Cache.Write(cs, Cache.VersionKey(enterpriseId), r.0, RuleTtl, now, setFault).0
  {
    var cached := Cache.Read(cs, Cache.VersionKey(enterpriseId), now, getFault);
    if Truthy(cached) then (cached.value, cs)
    else
      var tag := TableLookup(rules, enterpriseId);
      (tag, Cache.Write(cs, Cache.VersionKey(enterpriseId), tag, RuleTtl, now, setFault).0)
  }

  /** The ttl `setVersionRule` passes to the cache: 3600 when none is given. */
  function RuleWriteTtl(ttl: Option<nat>): (t: nat)
    ensures ttl.None? ==> t == RuleTtl
    ensures ttl.Some? ==> t == ttl.value
  {
    match ttl
    case None => RuleTtl
    case Some(t) => t
  }

  /** `setVersionRule`: the table entry is overwritten unconditionally; the
      answer is that of the cache write, which does not undo the table
      update when it fails. */
  function SetRule(rules: map<string, string>, cs: Cache.CacheState, enterpriseId: string,
                   versionTag: string, ttl: Option<nat>, now: int, fault: bool)
    : (res: (map<string, string>, Cache.CacheState, bool))
    ensures res.0.Keys == rules.Keys + {enterpriseId}
    ensures res.0[enterpriseId] == versionTag
    ensures forall k :: k in rules && k != enterpriseId ==> res.0[k] == rules[k]
    ensures (res.1, res.2) == Cache.Write(cs, Cache.VersionKey(enterpriseId), versionTag, RuleWriteTtl(ttl), now, fault)
    ensures res.2 <==> !fault && Cache.Active(cs) != Cache.NoBackend
  {
    var w := Cache.Write(cs, Cache.VersionKey(enterpriseId), versionTag, RuleWriteTtl(ttl), now, fault);
    (rules[enterpriseId := versionTag], w.0, w.1)
  }

  /** A cache hit answers without consulting the table: any two tables give
      the same answer and the cache is left alone. */
  lemma ResolveOnHit(rules: map<string, string>, other: map<string, string>, cs: Cache.CacheState,
                     enterpriseId: string, now: int, getFault: bool, setFault: bool)
    requires DefaultTenant in rules && DefaultTenant in other
    requires Truthy(Cache.Read(cs, Cache.VersionKey(enterpriseId), now, getFault))
    ensures Resolve(rules, cs, enterpriseId, now, getFault, setFault)
            == (Cache.Read(cs, Cache.VersionKey(enterpriseId), now, getFault).value, cs)
    ensures Resolve(rules, cs, enterpriseId, now, getFault, setFault)
            == Resolve(other, cs, enterpriseId, now, getFault, setFault)
  {
  }

  /** On a miss the tenant's truthy rule, else the default rule, is returned
      and is then served from the cache for the next hour (when the write
      succeeded), and no other key changes. */
  lemma {:induction false} ResolveOnMiss(rules: map<string, string>, cs: Cache.CacheState, enterpriseId: string,
                                         now: int, later: int, getFault: bool, setFault: bool)
    requires DefaultTenant in rules
    requires !Truthy(Cache.Read(cs, Cache.VersionKey(enterpriseId), now, getFault))
    ensures var (tag, cs') := Resolve(rules, cs, enterpriseId, now, getFault, setFault);
            && (enterpriseId in rules && rules[enterpriseId] != "" ==> tag == rules[enterpriseId])
            && (!(enterpriseId in rules && rules[enterpriseId] != "") ==> tag == rules[DefaultTenant])
            && (Cache.Active(cs) != Cache.NoBackend && !setFault && tag != "" && now <= later < now + RuleTtl
                ==> Cache.Read(cs', Cache.VersionKey(enterpriseId), later, false) == Some(tag))
            && (Cache.Active(cs) != Cache.NoBackend && !setFault && later >= now + RuleTtl
                ==> Cache.Read(cs', Cache.VersionKey(enterpriseId), later, false) == None)
            && (forall k :: k != Cache.VersionKey(enterpriseId) ==>
                  Cache.Read(cs', k, later, false) == Cache.Read(cs, k, later, false))
  {
    var (tag, cs') := Resolve(rules, cs, enterpriseId, now, getFault, setFault);
    var key := Cache.VersionKey(enterpriseId);
    if Cache.Active(cs) != Cache.NoBackend && !setFault && tag != "" && now <= later < now + RuleTtl {
      Cache.WriteThenRead(cs, key, tag, RuleTtl, now, later);
    }
    forall k | k != key
      ensures Cache.Read(cs', k, later, false) == Cache.Read(cs, k, later, false)
    {
      Cache.OtherKeysUnchanged(cs, key, k, tag, RuleTtl, now, later, setFault, false);
    }
  }

  /** On the seeded table and a cold cache, an unseeded tenant gets the
      default tag and 'enterprise-a' gets its beta. */
  lemma SeededResolution(cs: Cache.CacheState, enterpriseId: string, now: int, getFault: bool, setFault: bool)
    requires !Truthy(Cache.Read(cs, Cache.VersionKey(enterpriseId), now, getFault))
    ensures enterpriseId !in Seed ==> Resolve(Seed, cs, enterpriseId, now, getFault, setFault).0 == "1.8.0-stable"
    ensures enterpriseId == "enterprise-a" ==> Resolve(Seed, cs, enterpriseId, now, getFault, setFault).0 == "2.0.0-beta"
  {
  }

  /** After `setVersionRule(id, v)` with a truthy `v`, the next lookup of `id`
      answers `v` when the cache write succeeded, at any later time and even
      if the lookup's own cache calls fail. When the write failed it answers
      `v` only if no live truthy entry for `id` is left in the cache. */
  lemma {:induction false} SetRuleThenResolve(rules: map<string, string>, cs: Cache.CacheState, enterpriseId: string,
                                              versionTag: string, ttl: Option<nat>, now: int, fault: bool,
                                              later: int, getFault: bool, setFault: bool)
    requires DefaultTenant in rules
    requires versionTag != ""
    requires var (_, cs', ok) := SetRule(rules, cs, enterpriseId, versionTag, ttl, now, fault);
             ok || !Truthy(Cache.Read(cs', Cache.VersionKey(enterpriseId), later, getFault))
    ensures var (rules', cs', _) := SetRule(rules, cs, enterpriseId, versionTag, ttl, now, fault);
            Resolve(rules', cs', enterpriseId, later, getFault, setFault).0 == versionTag
  {
    var (rules', cs', ok) := SetRule(rules, cs, enterpriseId, versionTag, ttl, now, fault);
    var key := Cache.VersionKey(enterpriseId);
    var cached := Cache.Read(cs', key, later, getFault);
    if ok && Truthy(cached) {
      if Cache.Active(cs) == Cache.RedisBackend {
        assert cs'.redis[key].value == versionTag;
      } else {
        assert cs'.memory[key].value == versionTag;
      }
    }
  }

  /** The restriction above is needed: a Redis `set` that throws over a live
      stale entry leaves the old tag in force, even when the next `get`
      succeeds. */
  lemma StaleAfterFailedWrite()
    ensures var cs := Cache.CacheState(true, true, false,
                                       map[Cache.VersionKey("t1") := Cache.Entry("v1", Some(100))], map[]);
            var (rules', cs', ok) := SetRule(Seed, cs, "t1", "v9", None, 0, true);
            && Cache.Active(cs) == Cache.RedisBackend
            && !ok && rules'["t1"] == "v9" && Resolve(rules', cs', "t1", 1, false, false).0 == "v1"
  {
    var cs := Cache.CacheState(true, true, false,
                               map[Cache.VersionKey("t1") := Cache.Entry("v1", Some(100))], map[]);
    assert Cache.Read(cs, Cache.VersionKey("t1"), 1, false) == Some("v1");
  }

  /** `Object.fromEntries` of a list of entries: later entries win. */
  function EntriesToMap(entries: seq<(string, string)>): (m: map<string, string>)
    ensures |entries| > 0 ==> entries[|entries| - 1].0 in m && m[entries[|entries| - 1].0] == entries[|entries| - 1].1
    ensures forall i :: 0 <= i < |entries| ==> entries[i].0 in m
  {
    if |entries| == 0 then map[]
    else EntriesToMap(entries[..|entries| - 1])[entries[|entries| - 1].0 := entries[|entries| - 1].1]
  }

  /** The entries of a JavaScript object have distinct keys. */
  ghost predicate DistinctKeys(entries: seq<(string, string)>)
  {
    forall i, j :: 0 <= i < j < |entries| ==> entries[i].0 != entries[j].0
  }

  /** Each entry's key maps to that entry's value, and nothing else is a key. */
  lemma {:induction false} EntriesToMapAt(entries: seq<(string, string)>)
    requires DistinctKeys(entries)
    ensures forall i :: 0 <= i < |entries| ==>
              entries[i].0 in EntriesToMap(entries) && EntriesToMap(entries)[entries[i].0] == entries[i].1
    ensures forall k :: k in EntriesToMap(entries) ==> exists i :: 0 <= i < |entries| && entries[i].0 == k
  {
    if |entries| > 0 {
      var init := entries[..|entries| - 1];
      assert DistinctKeys(init);
      EntriesToMapAt(init);
      forall k | k in EntriesToMap(entries)
        ensures exists i :: 0 <= i < |entries| && entries[i].0 == k
      {
        if k != entries[|entries| - 1].0 {
          var i :| 0 <= i < |init| && init[i].0 == k;
          assert entries[i].0 == k;
        }
      }
    }
  }

  /** The cache after the bulk update's writes, one per entry in order. */
  function WriteAll(cs: Cache.CacheState, entries: seq<(string, string)>, faults: seq<bool>, now: int)
    : (r: Cache.CacheState)
    requires |faults| == |entries|
    ensures Cache.Active(r) == Cache.Active(cs)
  {
    if |entries| == 0 then cs
    else
      var n := |entries| - 1;
      Cache.Write(WriteAll(cs, entries[..n], faults[..n], now),
                  Cache.VersionKey(entries[n].0), entries[n].1, RuleWriteTtl(None), now, faults[n]).0
  }

  /** After the bulk update, every entry whose write succeeded is served
      from the cache for the next hour (truthy values; the memory cache reads
      falsy ones as `null`), whatever order the writes ran in. */
  lemma {:induction false} WriteAllThenRead(cs: Cache.CacheState, entries: seq<(string, string)>, faults: seq<bool>,
                                            now: int, later: int, i: nat)
    requires |faults| == |entries| && DistinctKeys(entries)
    requires Cache.Active(cs) != Cache.NoBackend
    requires i < |entries| && !faults[i] && entries[i].1 != ""
    requires now <= later < now + RuleTtl
    ensures Cache.Read(WriteAll(cs, entries, faults, now), Cache.VersionKey(entries[i].0), later, false)
            == Some(entries[i].1)
    decreases |entries|
  {
    var n := |entries| - 1;
    var init, initFaults := entries[..n], faults[..n];
    var before := WriteAll(cs, init, initFaults, now);
    assert DistinctKeys(init);
    if i == n {
      Cache.WriteThenRead(before, Cache.VersionKey(entries[n].0), entries[n].1, RuleTtl, now, later);
    } else {
      WriteAllThenRead(cs, init, initFaults, now, later, i);
      assert entries[i].0 != entries[n].0;
      if Cache.VersionKey(entries[i].0) == Cache.VersionKey(entries[n].0) {
        Cache.VersionKeyInjective(entries[i].0, entries[n].0);
      }
      Cache.OtherKeysUnchanged(before, Cache.VersionKey(entries[n].0), Cache.VersionKey(entries[i].0),
                               entries[n].1, RuleTtl, now, later, faults[n], false);
    }
  }

  /** The bulk update's writes use the 3600 s default: once that has passed,
      an entry whose write succeeded is no longer served from the cache. */
  lemma {:induction false} WriteAllExpires(cs: Cache.CacheState, entries: seq<(string, string)>, faults: seq<bool>,
                                           now: int, later: int, i: nat)
    requires |faults| == |entries| && DistinctKeys(entries)
    requires Cache.Active(cs) != Cache.NoBackend
    requires i < |entries| && !faults[i]
    requires later >= now + RuleTtl
    ensures Cache.Read(WriteAll(cs, entries, faults, now), Cache.VersionKey(entries[i].0), later, false) == None
    decreases |entries|
  {
    var n := |entries| - 1;
    var init, initFaults := entries[..n], faults[..n];
    var before := WriteAll(cs, init, initFaults, now);
    assert DistinctKeys(init);
    if i < n {
      WriteAllExpires(cs, init, initFaults, now, later, i);
      assert entries[i].0 != entries[n].0;
      if Cache.VersionKey(entries[i].0) == Cache.VersionKey(entries[n].0) {
        Cache.VersionKeyInjective(entries[i].0, entries[n].0);
      }
      Cache.OtherKeysUnchanged(before, Cache.VersionKey(entries[n].0), Cache.VersionKey(entries[i].0),
                               entries[n].1, RuleTtl, now, later, faults[n], false);
    }
  }

  /** The rule engine object. */
  class RuleEngine {
    var defaultRules: map<string, string>
    const cache: Cache.CacheService

    /** The rule for 'default' is always present: no operation removes a rule. */
    ghost predicate Valid()
      reads this
    {
      DefaultTenant in defaultRules
    }

    constructor (cache: Cache.CacheService)
      ensures Valid()
      ensures defaultRules == Seed && this.cache == cache
    {
      defaultRules := Seed;
      this.cache := cache;
    }

    /** Cache-aside lookup of a tenant's version tag; the table is only read. */
    method GetVersionTag(enterpriseId: string, now: int, getFault: bool, setFault: bool)
      returns (versionTag: string)
      requires Valid()
      modifies cache
      ensures defaultRules == old(defaultRules)
      ensures (versionTag, cache.State())
              == Resolve(defaultRules, old(cache.State()), enterpriseId, now, getFault, setFault)
    {
      var cached := cache.GetVersionTag(enterpriseId, now, getFault);
      if !Truthy(cached) {
        if enterpriseId in defaultRules && defaultRules[enterpriseId] != "" {
          versionTag := defaultRules[enterpriseId];
        } else {
          versionTag := defaultRules[DefaultTenant];
        }
        var _ := cache.SetVersionTag(enterpriseId, versionTag, RuleTtl, now, setFault);
      } else {
        versionTag := cached.value;
      }
    }

    /** Overwrites a tenant's rule and writes it through to the cache. */
    method SetVersionRule(enterpriseId: string, versionTag: string, ttl: Option<nat>, now: int, fault: bool)
      returns (ok: bool)
      requires Valid()
      modifies this, cache
      ensures Valid()
      ensures (defaultRules, cache.State(), ok)
              == SetRule(old(defaultRules), old(cache.State()), enterpriseId, versionTag, ttl, now, fault)
    {
      defaultRules := defaultRules[enterpriseId := versionTag];
      ok := cache.SetVersionTag(enterpriseId, versionTag, RuleWriteTtl(ttl), now, fault);
    }

    /** Applies `SetVersionRule` to every entry; `faults[i]` says whether the
        i-th cache write fails. No entry's failure stops the others. */
    method SetRules(entries: seq<(string, string)>, now: int, faults: seq<bool>)
      requires Valid()
      requires |faults| == |entries|
      modifies this, cache
      ensures Valid()
      ensures defaultRules == old(defaultRules) + EntriesToMap(entries)
      ensures cache.State() == WriteAll(old(cache.State()), entries, faults, now)
    {
      var i := 0;
      while i < |entries|
        invariant 0 <= i <= |entries|
        invariant Valid()
        invariant defaultRules == old(defaultRules) + EntriesToMap(entries[..i])
        invariant cache.State() == WriteAll(old(cache.State()), entries[..i], faults[..i], now)
      {
        var _ := SetVersionRule(entries[i].0, entries[i].1, None, now, faults[i]);
        assert entries[..i + 1][..i] == entries[..i];
        assert faults[..i + 1][..i] == faults[..i];
        i := i + 1;
      }
      assert entries[..i] == entries;
      assert faults[..i] == faults;
    }

    /** A snapshot of the table. Maps are values here, so changing the
        snapshot can never change the engine's table. */
    method GetDefaultRules() returns (snapshot: map<string, string>)
      ensures snapshot == defaultRules
    {
      snapshot := defaultRules;
    }
  }

  /** After the bulk update, the entries' keys hold the entries' values and
      every other key keeps its rule. */
  lemma SetRulesTable(rules: map<string, string>, entries: seq<(string, string)>)
    requires DistinctKeys(entries)
    ensures forall i :: 0 <= i < |entries| ==>
              entries[i].0 in rules + EntriesToMap(entries) && (rules + EntriesToMap(entries))[entries[i].0] == entries[i].1
    ensures forall k :: k in rules && (forall i :: 0 <= i < |entries| ==> entries[i].0 != k) ==>
              (rules + EntriesToMap(entries))[k] == rules[k]
  {
    EntriesToMapAt(entries);
  }
}

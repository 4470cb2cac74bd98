/** The process-wide TTL cache: a registry of named namespaces, each a map
    from key to `{ value, expiresAt }` with lazy expiry on read.  Time is a
    parameter (`now`, milliseconds) instead of `Date.now()`. */
module SimpleCache {
  import opened Wrappers

  /** `expiresAt == 0` means "never expires". */
  datatype Entry<V> = Entry(value: V, expiresAt: int)

  /** The source tests `entry.expiresAt && entry.expiresAt <= now`: expiry is
      inclusive of the instant `expiresAt` itself. */
  predicate Expired<V>(e: Entry<V>, now: int) {
    e.expiresAt != 0 && e.expiresAt <= now
  }

  /** The expiry stamp `set` computes: `ttl > 0 ? now + ttl : 0`. */
  function ExpiryFor(ttl: int, now: int): int {
    if ttl > 0 then now + ttl else 0
  }

  /** What `get` answers on a map. */
  function Lookup<V>(m: map<string, Entry<V>>, key: string, now: int): Option<V> {
    if key in m && !Expired(m[key], now) then Some(m[key].value) else None
  }

  /** What a `get` or `has` leaves behind: an expired entry for `key` is deleted. */
  function AfterRead<V>(m: map<string, Entry<V>>, key: string, now: int): map<string, Entry<V>> {
    if key in m && Expired(m[key], now) then m - {key} else m
  }

  class Namespace<V> {
    const name: string
    const defaultTtl: int
    var entries: map<string, Entry<V>>

    constructor (name: string, defaultTtl: int)
      ensures this.name == name && this.defaultTtl == defaultTtl && entries == map[]
    {
      this.name := name;
      this.defaultTtl := defaultTtl;
      entries := map[];
    }

    /** `set(key, value, ttl = defaultTTL)`; `ttl == None` is an omitted argument. */
    method Set(key: string, value: V, ttl: Option<int>, now: int)
      modifies this
      ensures entries == old(entries)[key := Entry(value, ExpiryFor(ttl.GetOr(defaultTtl), now))]
    {
      var t := ttl.GetOr(defaultTtl);
      var expiresAt := if t > 0 then now + t else 0;
      entries := entries[key := Entry(value, expiresAt)];
    }

    method Get(key: string, now: int) returns (r: Option<V>)
      modifies this
      ensures r == Lookup(old(entries), key, now)
      ensures entries == AfterRead(old(entries), key, now)
      ensures r.Some? <==> key in old(entries) && !Expired(old(entries)[key], now)
    {
      if key !in entries {
        return None;
      }
      var entry := entries[key];
      if entry.expiresAt != 0 && entry.expiresAt <= now {
        entries := entries - {key};
        return None;
      }
      return Some(entry.value);
    }

    method Has(key: string, now: int) returns (b: bool)
      modifies this
      ensures b <==> Lookup(old(entries), key, now).Some?
      ensures entries == AfterRead(old(entries), key, now)
    {
      if key !in entries {
        return false;
      }
      var entry := entries[key];
      if entry.expiresAt != 0 && entry.expiresAt <= now {
        entries := entries - {key};
        return false;
      }
      return true;
    }

    method Del(key: string)
      modifies this
      ensures entries == old(entries) - {key}
    {
      entries := entries - {key};
    }
  }

  /** The module-level `namespaces` map of the source. */
  class Registry<V> {
    var namespaces: map<string, Namespace<V>>

    /** Each namespace is registered under its own name, so distinct names
        never share a namespace. */
    ghost predicate Valid()
      reads this, namespaces.Values
    {
      forall n :: n in namespaces ==> namespaces[n].name == n
    }

    constructor ()
      ensures Valid() && namespaces == map[]
    {
      namespaces := map[];
    }

    /** `createNamespace(name, defaultTTL = 0)`: get-or-create.  A second call
        with a known name returns the registered namespace and ignores the
        new default TTL. */
    method CreateNamespace(name: string, defaultTtl: Option<int>) returns (ns: Namespace<V>)
      requires Valid()
      modifies this
      ensures Valid()
      ensures name in old(namespaces) ==> ns == old(namespaces)[name] && namespaces == old(namespaces)
      ensures name !in old(namespaces) ==>
        fresh(ns) && ns.entries == map[] && ns.defaultTtl == defaultTtl.GetOr(0) &&
        namespaces == old(namespaces)[name := ns]
      ensures ns.name == name
    {
      if name in namespaces {
        return namespaces[name];
      }
      ns := new Namespace(name, defaultTtl.GetOr(0));
      namespaces := namespaces[name := ns];
    }
  }

  /** Distinct names never share a namespace, so a `set` or `del` through one
      handle leaves every other namespace as it was. */
  lemma NamesAreDistinctNamespaces<V>(r: Registry<V>, a: string, b: string)
    requires r.Valid() && a in r.namespaces && b in r.namespaces && a != b
    ensures r.namespaces[a] != r.namespaces[b]
  {
  }

  /** `set` then `get` (clock readings are non-negative): a positive TTL serves the value strictly before
      `now + ttl`; a TTL of zero or less never expires. */
  lemma {:induction false} SetThenLookup<V>(m: map<string, Entry<V>>, key: string, value: V, ttl: int, setAt: nat, now: int)
    ensures Lookup(m[key := Entry(value, ExpiryFor(ttl, setAt))], key, now) ==
      if ttl <= 0 || now < setAt + ttl then Some(value) else None
  {
  }

  /** An expired read removes the entry, so every later read (at any time) misses. */
  lemma ExpiredReadIsFinal<V>(m: map<string, Entry<V>>, key: string, now: int, later: int)
    requires key in m && Expired(m[key], now)
    ensures Lookup(AfterRead(m, key, now), key, later) == None
  {
  }

  /** `set`, `del` and reads touch only their own key. */
  lemma OtherKeysUntouched<V>(m: map<string, Entry<V>>, key: string, other: string, value: V, ttl: int, now: int)
    requires other != key
    ensures Lookup(m[key := Entry(value, ExpiryFor(ttl, now))], other, now) == Lookup(m, other, now)
    ensures Lookup(m - {key}, other, now) == Lookup(m, other, now)
    ensures Lookup(AfterRead(m, key, now), other, now) == Lookup(m, other, now)
  {
  }
}

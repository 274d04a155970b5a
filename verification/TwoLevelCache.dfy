// server/internal/cache/cache.go: the in-memory cache with expiry and the two-level
// cache over two of them, one call at a time; every clock read is a parameter of its
// own. CacheSteps takes the calls apart into their locked sections. JSON encoding is
// the identity.
module TwoLevelCache {

  import opened Sequences

  // No expiry time means never.
  datatype Item<V> = Item(value: V, expiresAt: Option<int>)

  type Store<V> = map<string, Item<V>>

  datatype Lookup<V> = Hit(value: V) | CacheMiss | CacheExpired

  // ------------------------------------------------------------ MemoryCache

  predicate Expired<V>(item: Item<V>, now: int) {
    item.expiresAt.Some? && now > item.expiresAt.value
  }

  function Expiry(now: int, ttl: int): Option<int> {
    if ttl > 0 then Some(now + ttl) else None
  }

  function Found<V>(s: Store<V>, key: string, now: int): Lookup<V> {
    if key !in s then CacheMiss
    else if Expired(s[key], now) then CacheExpired
    else Hit(s[key].value)
  }

  function AfterGet<V>(s: Store<V>, key: string, now: int): Store<V> {
    if key in s && Expired(s[key], now) then s - {key} else s
  }

  function AfterSet<V>(s: Store<V>, key: string, value: V, ttl: int, now: int): Store<V> {
    s[key := Item(value, Expiry(now, ttl))]
  }

  function AfterCleanup<V>(s: Store<V>, now: int): Store<V> {
    map key | key in s && !Expired(s[key], now) :: s[key]
  }

  class MemoryCache<V> {
    var data: Store<V>

    constructor ()
      ensures data == map[]
    {
      data := map[];
    }

    method Get(key: string, now: int) returns (r: Lookup<V>)
      modifies this
      ensures r == Found(old(data), key, now) && data == AfterGet(old(data), key, now)
    {
      if key !in data {
        return CacheMiss;
      }
      var item := data[key];
      if item.expiresAt.Some? && now > item.expiresAt.value {
        Delete(key);
        return CacheExpired;
      }
      return Hit(item.value);
    }

    method Set(key: string, value: V, ttl: int, now: int)
      modifies this
      ensures data == AfterSet(old(data), key, value, ttl, now)
    {
      var expiresAt := None;
      if ttl > 0 {
        expiresAt := Some(now + ttl);
      }
      data := data[key := Item(value, expiresAt)];
    }

    method Delete(key: string)
      modifies this
      ensures data == old(data) - {key}
    {
      data := data - {key};
    }

    method Clear()
      modifies this
      ensures data == map[]
    {
      data := map[];
    }

    method Cleanup(now: int)
      modifies this
      ensures data == AfterCleanup(old(data), now)
      ensures forall k :: k in data <==>
                k in old(data) && (old(data)[k].expiresAt.Some? ==> now <= old(data)[k].expiresAt.value)
    {
      var todo := data.Keys;
      while todo != {}
        invariant todo <= old(data).Keys && data.Keys <= old(data).Keys
        invariant forall k :: k in data ==> data[k] == old(data)[k]
        invariant forall k :: k in old(data) ==> (k in data <==> k in todo || !Expired(old(data)[k], now))
      {
        var key :| key in todo;
        if data[key].expiresAt.Some? && now > data[key].expiresAt.value {
          data := data - {key};
        }
        todo := todo - {key};
      }
    }
  }

  // ---------------------------------------------------------- TwoLevelCache

  datatype Levels<V> = Levels(l1: Store<V>, l2: Store<V>)

  function L1TTLFor(l1TTL: int, ttl: int): int {
    if ttl < l1TTL then ttl else l1TTL
  }

  // The first level is checked at `at1`, the second at `at2`.
  function Answer<V>(s: Levels<V>, key: string, at1: int, at2: int): Lookup<V> {
    if Found(s.l1, key, at1).Hit? then Found(s.l1, key, at1) else Found(s.l2, key, at2)
  }

  // A hit in the second level refills the first for its own full lifetime from `at3` on.
  function AfterRead<V>(s: Levels<V>, l1TTL: int, key: string, at1: int, at2: int, at3: int): Levels<V> {
    if Found(s.l1, key, at1).Hit? then s
    else
      var l1 := AfterGet(s.l1, key, at1);
      var l2 := AfterGet(s.l2, key, at2);
      match Found(s.l2, key, at2)
      case Hit(v) => Levels(AfterSet(l1, key, v, l1TTL, at3), l2)
      case _ => Levels(l1, l2)
  }

  function AfterWrite<V>(s: Levels<V>, l1TTL: int, key: string, value: V, ttl: int, at1: int, at2: int): Levels<V> {
    Levels(AfterSet(s.l1, key, value, L1TTLFor(l1TTL, ttl), at1), AfterSet(s.l2, key, value, ttl, at2))
  }

  // A value set and then read with nothing between: it is answered without end if one of
  // its two lifetimes is not positive, and otherwise as long as one of the levels keeps it,
  // the first for the smaller of the entry's lifetime and its own.
  lemma SetThenGet<V>(s: Levels<V>, l1TTL: int, key: string, v: V, ttl: int, t1: int, t2: int, at1: int, at2: int)
    ensures Answer(AfterWrite(s, l1TTL, key, v, ttl, t1, t2), key, at1, at2)
            == if ttl <= 0 || l1TTL <= 0 || at1 - t1 <= (if ttl < l1TTL then ttl else l1TTL) || at2 - t2 <= ttl
               then Hit(v) else CacheExpired
    ensures forall k, at1, at2 :: k != key ==>
              Answer(AfterWrite(s, l1TTL, key, v, ttl, t1, t2), k, at1, at2) == Answer(s, k, at1, at2)
  {
  }

  // A read that refills the first level keeps the value for l1TTL from its third clock
  // read on, whatever the second level has by then.
  lemma GetThenGet<V>(s: Levels<V>, l1TTL: int, key: string, at1: int, at2: int, at3: int,
                      at: int, l2: Store<V>, to: int)
    requires !Found(s.l1, key, at1).Hit? && Found(s.l2, key, at2).Hit?
    ensures var after := AfterRead(s, l1TTL, key, at1, at2, at3).(l2 := l2);
            Answer(after, key, at, to)
            == if l1TTL <= 0 || at - at3 <= l1TTL then Hit(s.l2[key].value) else Found(l2, key, to)
  {
  }

  class TwoLevelCache<V> {
    const l1: MemoryCache<V>
    const l2: MemoryCache<V>
    const l1TTL: int

    ghost function Abs(): Levels<V>
      reads l1, l2
    {
      Levels(l1.data, l2.data)
    }

    constructor (l2: MemoryCache<V>, l1TTL: int)
      ensures fresh(l1) && this.l2 == l2 && this.l1TTL == l1TTL
      ensures Abs() == Levels(map[], l2.data)
    {
      this.l2 := l2;
      this.l1TTL := l1TTL;
      l1 := new MemoryCache();
    }

    method Get(key: string, at1: int, at2: int, at3: int) returns (r: Lookup<V>)
      requires l1 != l2
      modifies l1, l2
      ensures r == Answer(old(Abs()), key, at1, at2)
      ensures Abs() == AfterRead(old(Abs()), l1TTL, key, at1, at2, at3)
    {
      r := l1.Get(key, at1);
      if r.Hit? {
        return;
      }
      r := l2.Get(key, at2);
      if !r.Hit? {
        return;
      }
      l1.Set(key, r.value, l1TTL, at3);
    }

    method Set(key: string, value: V, ttl: int, at1: int, at2: int)
      requires l1 != l2
      modifies l1, l2
      ensures Abs() == AfterWrite(old(Abs()), l1TTL, key, value, ttl, at1, at2)
    {
      var l1TTL' := l1TTL;
      if ttl < l1TTL' {
        l1TTL' := ttl;
      }
      l1.Set(key, value, l1TTL', at1);
      l2.Set(key, value, ttl, at2);
    }

    method Delete(key: string)
      requires l1 != l2
      modifies l1, l2
      ensures Abs() == Levels(old(l1.data) - {key}, old(l2.data) - {key})
    {
      l1.Delete(key);
      l2.Delete(key);
    }

    method Clear()
      requires l1 != l2
      modifies l1, l2
      ensures Abs() == Levels(map[], map[])
    {
      l1.Clear();
      l2.Clear();
    }
  }
}

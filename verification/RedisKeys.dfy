/** The part of Redis the workers rely on: keys with a time to live. Times are milliseconds of one shared
    clock; an entry is alive strictly before its expiry. */
module RedisKeys {
  datatype Entry<V> = Entry(value: V, expiresAt: int)

  type Store<V> = map<string, Entry<V>>

  predicate AliveAt<V>(m: Store<V>, key: string, now: int) {
    key in m && now < m[key].expiresAt
  }

  /** SET key value NX EX ttl. */
  function SetIfAbsent<V>(m: Store<V>, key: string, value: V, ttl: int, now: int): (Store<V>, bool) {
    if AliveAt(m, key, now) then (m, false) else (m[key := Entry(value, now + ttl)], true)
  }

  /** The script that deletes a key only while it still holds the given value. */
  function DeleteIfHolds<V(==)>(m: Store<V>, key: string, value: V, now: int): Store<V> {
    if AliveAt(m, key, now) && m[key].value == value then m - {key} else m
  }

  class Redis<V(==)> {
    var store: Store<V>

    constructor ()
      ensures store == map[]
    {
      store := map[];
    }

    method SetNxEx(key: string, value: V, ttl: int, now: int) returns (acquired: bool)
      modifies this
      ensures (store, acquired) == SetIfAbsent(old(store), key, value, ttl, now)
    {
      acquired := !AliveAt(store, key, now);
      if acquired {
        store := store[key := Entry(value, now + ttl)];
      }
    }

    method CompareAndDelete(key: string, value: V, now: int) returns (deleted: bool)
      modifies this
      ensures store == DeleteIfHolds(old(store), key, value, now)
      ensures deleted <==> old(AliveAt(store, key, now) && store[key].value == value)
    {
      deleted := AliveAt(store, key, now) && store[key].value == value;
      if deleted {
        store := store - {key};
      }
    }
  }
}

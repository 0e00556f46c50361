/** The in-memory cache of decrypted keys: entries expire, buffers are copied on the way in
    and on the way out, and a buffer is overwritten with zeros before it is dropped. */
module KeyCaches {
  import opened Wrappers
  import opened Utf8
  import opened Envelope

  /** The cache key "tmk:<tenant>:v<version>". A tenant prints as a fixed-width UUID, so the
      string and the pair determine each other. */
  datatype CacheId = TmkId(tenant: nat, version: int)

  datatype Slot = Slot(key: array<Byte>, expiresAt: int)

  /** A slot seen as a value. */
  datatype Held = Held(key: Bytes, expiresAt: int)

  class KeyCache {
    var cache: map<CacheId, Slot>
    const ttl: int
    /** Every buffer a caller has passed to `Set` or received from `Get`. */
    ghost var callers: set<array<Byte>>

    /** The buffers the cache owns. */
    ghost function Buffers(): set<array<Byte>>
      reads this
    {
      set id | id in cache :: cache[id].key
    }

    /** One buffer per entry, and none of them known to a caller. */
    ghost predicate Valid()
      reads this
    {
      && (forall i, j :: i in cache && j in cache && i != j ==> cache[i].key != cache[j].key)
      && Buffers() !! callers
    }

    ghost function Model(): map<CacheId, Held>
      reads this, Buffers()
    {
      map id | id in cache :: Held(cache[id].key[..], cache[id].expiresAt)
    }

    constructor (ttlSeconds: int)
      ensures Valid() && Model() == map[] && callers == {} && ttl == ttlSeconds
    {
      cache, ttl, callers := map[], ttlSeconds, {};
    }

    /** A hit hands out a private copy; an absent or expired entry is a miss. */
    method Get(id: CacheId, now: int) returns (r: Option<array<Byte>>)
      requires Valid()
      modifies this`callers
      ensures Valid() && Model() == old(Model())
      ensures r.Some? <==> id in Model() && now <= Model()[id].expiresAt
      ensures r.Some? ==> fresh(r.value) && r.value[..] == Model()[id].key
      ensures callers == old(callers) + (if r.Some? then {r.value} else {})
    {
      if id !in cache || now > cache[id].expiresAt {
        return None;
      }
      var cached := cache[id].key;
      var keyCopy := new Byte[cached.Length](i requires 0 <= i < cached.Length reads cached => cached[i]);
      assert keyCopy[..] == cached[..];
      callers := callers + {keyCopy};
      r := Some(keyCopy);
    }

    /** Stores a private copy. `key` is a caller's buffer, so it is not one of the cache's. */
    method Set(id: CacheId, key: array<Byte>, now: int)
      requires Valid() && key !in Buffers()
      modifies this
      ensures Valid()
      ensures Model() == old(Model())[id := Held(key[..], now + ttl)]
      ensures callers == old(callers) + {key}
    {
      var keyCopy := new Byte[key.Length](i requires 0 <= i < key.Length reads key => key[i]);
      assert keyCopy[..] == key[..];
      cache := cache[id := Slot(keyCopy, now + ttl)];
      callers := callers + {key};
    }

    /** Zeroes the buffer of a present entry, then removes the entry. */
    method DeleteEntry(id: CacheId)
      requires Valid() && id in cache
      modifies this`cache, cache[id].key
      ensures cache == old(cache) - {id}
      ensures Zeroed(old(cache[id].key))
    {
      ZeroBytes(cache[id].key);
      cache := cache - {id};
    }

    /** Drops one entry and zeroes its buffer; buffers of callers keep their bytes. */
    method Delete(id: CacheId)
      requires Valid()
      modifies this`cache, Buffers()
      ensures Valid()
      ensures Model() == old(Model()) - {id}
      ensures forall b :: b in callers ==> b[..] == old(b[..])
      ensures id in old(cache) ==> Zeroed(old(cache[id].key))
    {
      if id in cache {
        DeleteEntry(id);
      }
    }

    /** Empties the cache and zeroes every buffer it owned. */
    method Clear()
      requires Valid()
      modifies this`cache, Buffers()
      ensures Valid() && Model() == map[]
      ensures forall b :: b in callers ==> b[..] == old(b[..])
      ensures forall b :: b in old(Buffers()) ==> Zeroed(b)
    {
      var todo := cache.Keys;
      while todo != {}
        invariant todo <= cache.Keys && cache == old(cache)
        invariant forall id :: id in cache.Keys - todo ==> Zeroed(cache[id].key)
        invariant forall b :: b in callers ==> b[..] == old(b[..])
        decreases todo
      {
        var id :| id in todo;
        ZeroBytes(cache[id].key);
        todo := todo - {id};
      }
      cache := map[];
    }

    /** One tick of the cleanup loop: exactly the expired entries go, the others keep their bytes. */
    method Cleanup(now: int)
      requires Valid()
      modifies this`cache, Buffers()
      ensures Valid()
      ensures Model() == Unexpired(old(Model()), now)
      ensures forall id :: id in Model() <==> id in old(Model()) && now <= old(Model())[id].expiresAt
      ensures forall id :: id in Model() ==> Model()[id] == old(Model())[id]
      ensures forall b :: b in callers ==> b[..] == old(b[..])
      ensures forall id :: id in old(cache) && id !in cache ==> Zeroed(old(cache[id].key))
    {
      var todo := cache.Keys;
      ghost var start, gone := cache, {};
      while todo != {}
        invariant gone !! todo && gone + todo <= start.Keys && cache == start - gone
        invariant forall id :: id in gone ==> now > start[id].expiresAt && Zeroed(start[id].key)
        invariant forall id :: id in start.Keys - todo - gone ==> now <= start[id].expiresAt
        invariant forall id :: id in start.Keys - gone ==> start[id].key[..] == old(start[id].key[..])
        invariant forall b :: b in callers ==> b[..] == old(b[..])
        decreases todo
      {
        var id :| id in todo;
        todo := todo - {id};
        if now > cache[id].expiresAt {
          DeleteEntry(id);
          gone := gone + {id};
        }
      }
    }
  }

  ghost predicate Zeroed(b: array<Byte>)
    reads b
  {
    forall i :: 0 <= i < b.Length ==> b[i] == 0
  }

  function Unexpired(model: map<CacheId, Held>, now: int): map<CacheId, Held> {
    map id | id in model && now <= model[id].expiresAt :: model[id]
  }
}

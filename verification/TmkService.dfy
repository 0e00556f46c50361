/** The service over the key table: creation, lookup through the cache, rotation. */
module TmkServices {
  import opened Wrappers
  import opened Utf8
  import opened Kms
  import opened Envelope
  import opened KeyCaches
  import opened TmkTable

  datatype TmkError = RandomFailed | KmsFailed | StoreFailed | NoActiveKey

  const KEY_SIZE := 32

  /** `key` is the plaintext of the row stored for `id`. */
  ghost predicate PlaintextOf(kms: Provider, rows: Table, id: CacheId, key: Bytes) {
    exists i :: 0 <= i < |rows| && rows[i].tenant == id.tenant && rows[i].version == id.version
                && kms.decrypt(rows[i].kmsKeyId, rows[i].encryptedKey) == Some(key)
  }

  /** No two rows share tenant and version: what either uniqueness rule enforces. */
  ghost predicate VersionsUnique(rows: Table) {
    forall i, j :: 0 <= i < j < |rows| ==> !(rows[i].tenant == rows[j].tenant && rows[i].version == rows[j].version)
  }

  /** What the caller's KMS and database do during one call. */
  datatype Faults = Faults(random: bool, kms: bool, db: Fault)

  class TmkService {
    const kms: Provider
    const unique: Uniqueness
    const keyCache: KeyCache
    var rows: Table

    /** Every cached key is the plaintext of its row. */
    ghost predicate Valid()
      reads this, keyCache, keyCache.Buffers()
    {
      && Lawful(kms)
      && VersionsUnique(rows)
      && keyCache.Valid()
      && forall id :: id in keyCache.Model() ==> PlaintextOf(kms, rows, id, keyCache.Model()[id].key)
    }

    constructor (kms: Provider, unique: Uniqueness)
      requires Lawful(kms)
      ensures Valid() && fresh(keyCache) && rows == [] && keyCache.Model() == map[]
      ensures this.kms == kms && this.unique == unique && keyCache.ttl == 300
    {
      this.kms, this.unique, rows := kms, unique, [];
      keyCache := new KeyCache(300);
    }

    /** Stores the first version of a tenant's key. `random` are the key bytes drawn, `salt`
        what the KMS draws. The plaintext buffer is zeroed; the cached copy is not. */
    method CreateTmk(tenant: nat, kmsKeyId: KeyId, random: Bytes, salt: nat, now: int, faults: Faults)
      returns (r: Result<Row, TmkError>)
      requires Valid() && |random| == KEY_SIZE
      modifies this, keyCache
      ensures Valid()
      ensures var fault := if faults.random || faults.kms then BeforeInsert else faults.db;
              var op := Create(tenant, kmsKeyId, kms.encrypt(kmsKeyId, salt, random), fault);
              && rows == Apply(unique, old(rows), op)
              && (r.Ok? <==> Attempt(unique, old(rows), op).Some?)
              && (r.Ok? ==> rows == old(rows) + [r.value])
      ensures r.Ok? ==> !faults.random && !faults.kms && faults.db == NoFault
                        && r.value == Row(tenant, 1, true, kmsKeyId, kms.encrypt(kmsKeyId, salt, random))
      ensures r.Err? ==> rows == old(rows)
      ensures keyCache.Model() == if r.Ok?
                                  then old(keyCache.Model())[TmkId(tenant, 1) := Held(random, now + keyCache.ttl)]
                                  else old(keyCache.Model())
    {
      if faults.random { return Err(RandomFailed); }
      var plaintext := new Byte[KEY_SIZE](i requires 0 <= i < KEY_SIZE => random[i]);
      assert plaintext[..] == random;
      if faults.kms { return Err(KmsFailed); }
      var encrypted := kms.encrypt(kmsKeyId, salt, plaintext[..]);
      var row := Row(tenant, 1, true, kmsKeyId, encrypted);
      var inserted := Insert(unique, rows, row);
      if faults.db != NoFault || inserted.None? { return Err(StoreFailed); }
      RowsOutliveInsert(kms, rows, row, random);
      rows := inserted.value;
      CacheAndWipe(TmkId(tenant, 1), plaintext, now);
      return Ok(row);
    }

    /** Caches a freshly generated key, then overwrites the buffer it was generated in. */
    method CacheAndWipe(id: CacheId, plaintext: array<Byte>, now: int)
      requires keyCache.Valid() && plaintext !in keyCache.Buffers()
      modifies keyCache, plaintext
      ensures keyCache.Valid()
      ensures keyCache.Model() == old(keyCache.Model())[id := Held(old(plaintext[..]), now + keyCache.ttl)]
      ensures forall i :: 0 <= i < plaintext.Length ==> plaintext[i] == 0
    {
      keyCache.Set(id, plaintext, now);
      ghost var model := keyCache.Model();
      ZeroBytes(plaintext);
      assert keyCache.Model() == model;
    }

    /** Returns the plaintext of the tenant's active key, from the cache when it is there. The
        buffer returned belongs to the caller. */
    method GetActiveTmk(tenant: nat, now: int, queryFails: bool, kmsFails: bool)
      returns (r: Result<array<Byte>, TmkError>)
      requires Valid()
      modifies this, keyCache
      ensures Valid() && rows == old(rows)
      ensures r.Ok? ==>
        && ActiveRow(rows, tenant).Some?
        && kms.decrypt(ActiveRow(rows, tenant).value.kmsKeyId, ActiveRow(rows, tenant).value.encryptedKey)
          == Some(r.value[..])
        && fresh(r.value) && r.value in keyCache.callers
      ensures r == Err(NoActiveKey) <==> !queryFails && ActiveRow(rows, tenant).None?
      ensures ActiveRow(rows, tenant).Some? && !queryFails && !kmsFails ==>
        (r.Ok? <==> kms.decrypt(ActiveRow(rows, tenant).value.kmsKeyId,
          ActiveRow(rows, tenant).value.encryptedKey).Some?)
      // a fresh cached key needs no provider, and changes nothing
      ensures ActiveRow(rows, tenant).Some? && !queryFails ==>
        var id := TmkId(tenant, ActiveRow(rows, tenant).value.version);
        if id in old(keyCache.Model()) && now <= old(keyCache.Model())[id].expiresAt
        then r.Ok? && r.value[..] == old(keyCache.Model())[id].key && keyCache.Model() == old(keyCache.Model())
        else (kmsFails ==> r == Err(KmsFailed) && keyCache.Model() == old(keyCache.Model()))
             && (r.Ok? ==> keyCache.Model() == old(keyCache.Model())[id := Held(r.value[..], now + keyCache.ttl)])
      ensures queryFails ==> r == Err(StoreFailed) && keyCache.Model() == old(keyCache.Model())
    {
      if queryFails { return Err(StoreFailed); }
      var active := ActiveRow(rows, tenant);
      if active.None? { return Err(NoActiveKey); }
      r := FetchKey(active.value, now, kmsFails);
    }

    /** The plaintext of a row: from the cache, or decrypted and then cached. */
    method FetchKey(row: Row, now: int, kmsFails: bool) returns (r: Result<array<Byte>, TmkError>)
      requires Valid() && row in rows
      modifies this, keyCache
      ensures Valid() && rows == old(rows)
      ensures r.Ok? ==> kms.decrypt(row.kmsKeyId, row.encryptedKey) == Some(r.value[..])
                        && fresh(r.value) && r.value in keyCache.callers
      ensures r == Err(KmsFailed) || r.Ok?
      ensures !kmsFails ==> (r.Ok? <==> kms.decrypt(row.kmsKeyId, row.encryptedKey).Some?)
      ensures var id := TmkId(row.tenant, row.version);
        if id in old(keyCache.Model()) && now <= old(keyCache.Model())[id].expiresAt
        then r.Ok? && r.value[..] == old(keyCache.Model())[id].key && keyCache.Model() == old(keyCache.Model())
        else (kmsFails ==> r == Err(KmsFailed))
             && keyCache.Model() == if r.Ok? then old(keyCache.Model())[id := Held(r.value[..], now + keyCache.ttl)]
                                    else old(keyCache.Model())
    {
      var id := TmkId(row.tenant, row.version);
      ghost var before := keyCache.Model();
      var cached := keyCache.Get(id, now);
      if cached.Some? {
        CachedEqualsUncached(kms, rows, row, before[id].key);
        return Ok(cached.value);
      }
      var plain := kms.decrypt(row.kmsKeyId, row.encryptedKey);
      if kmsFails || plain.None? { return Err(KmsFailed); }
      r := CacheDecrypted(row, id, plain.value, now);
    }

    /** Puts a decrypted key into a buffer of the caller's, and a copy of it into the cache. */
    method CacheDecrypted(row: Row, id: CacheId, bytes: Bytes, now: int) returns (r: Result<array<Byte>, TmkError>)
      requires Valid() && row in rows && id == TmkId(row.tenant, row.version)
      requires kms.decrypt(row.kmsKeyId, row.encryptedKey) == Some(bytes)
      modifies this, keyCache
      ensures Valid() && rows == old(rows)
      ensures r.Ok? && r.value[..] == bytes && fresh(r.value) && r.value in keyCache.callers
      ensures keyCache.Model() == old(keyCache.Model())[id := Held(bytes, now + keyCache.ttl)]
    {
      ghost var k :| 0 <= k < |rows| && rows[k] == row;
      assert PlaintextOf(kms, rows, id, bytes);
      var plaintext := new Byte[|bytes|](i requires 0 <= i < |bytes| => bytes[i]);
      assert plaintext[..] == bytes;
      keyCache.Set(id, plaintext, now);
      return Ok(plaintext);
    }

    /** The first half of a rotation. The transaction works on a copy of the table that only a
        commit makes visible; the cache, which is not part of it, forgets the key at once. */
    method RetireActive(tenant: nat) returns (tx: Table, version: int)
      requires Valid()
      modifies keyCache, keyCache.Buffers()
      ensures Valid()
      ensures tx == Deactivate(rows, tenant) && version + 1 == NextVersion(rows, tenant)
      ensures keyCache.callers == old(keyCache.callers)
      ensures forall b :: b in keyCache.callers ==> b[..] == old(b[..])
      ensures ActiveRow(rows, tenant).Some? ==>
        ActiveRow(rows, tenant).value.version == version && TmkId(tenant, version) !in keyCache.Model()
    {
      tx := rows;
      var current := ActiveRow(tx, tenant);
      version := 0;
      if current.Some? {
        version := current.value.version;
        tx := Deactivate(tx, tenant);
        keyCache.Delete(TmkId(tenant, version));
      } else {
        assert tx == Deactivate(rows, tenant);
      }
    }

    /** Adds a version and retires the active one, all in one transaction. The retired key
        leaves the cache before the transaction is known to commit. */
    method RotateTmk(tenant: nat, kmsKeyId: KeyId, random: Bytes, salt: nat, now: int, faults: Faults)
      returns (r: Result<Row, TmkError>)
      requires Valid() && |random| == KEY_SIZE
      modifies this, keyCache, keyCache.Buffers()
      ensures Valid()
      ensures var fault := if faults.random || faults.kms then BeforeInsert else faults.db;
              var op := Rotate(tenant, kmsKeyId, kms.encrypt(kmsKeyId, salt, random), fault);
              && rows == Apply(unique, old(rows), op)
              && (r.Ok? <==> Attempt(unique, old(rows), op).Some?)
              && (r.Ok? ==> rows == Deactivate(old(rows), tenant) + [r.value])
      ensures r.Ok? ==> !faults.random && !faults.kms && faults.db == NoFault
                        && r.value.tenant == tenant && r.value.active && r.value.kmsKeyId == kmsKeyId
                        && r.value.encryptedKey == kms.encrypt(kmsKeyId, salt, random)
      ensures r.Err? ==> rows == old(rows)
      ensures r.Ok? ==> TmkId(tenant, r.value.version) in keyCache.Model()
                        && keyCache.Model()[TmkId(tenant, r.value.version)].key == random
      ensures ActiveRow(old(rows), tenant).Some? ==>
        TmkId(tenant, ActiveRow(old(rows), tenant).value.version) !in keyCache.Model()
      ensures forall b :: b in old(keyCache.callers) ==> b[..] == old(b[..])
    {
      var tx, version := RetireActive(tenant);
      if faults.random { return Err(RandomFailed); }
      var plaintext := new Byte[KEY_SIZE](i requires 0 <= i < KEY_SIZE => random[i]);
      assert plaintext[..] == random;
      if faults.kms { return Err(KmsFailed); }
      var encrypted := kms.encrypt(kmsKeyId, salt, plaintext[..]);
      var row := Row(tenant, version + 1, true, kmsKeyId, encrypted);
      var stored := CommitVersion(tx, row, plaintext, now, faults.db);
      if !stored { return Err(StoreFailed); }
      return Ok(row);
    }

    /** The second half of a rotation: insert and commit, then cache the new key and wipe it. */
    method CommitVersion(tx: Table, row: Row, plaintext: array<Byte>, now: int, fault: Fault) returns (ok: bool)
      requires Valid() && tx == Deactivate(rows, row.tenant)
      requires plaintext !in keyCache.Buffers() && kms.decrypt(row.kmsKeyId, row.encryptedKey) == Some(plaintext[..])
      modifies this, keyCache, plaintext
      ensures Valid()
      ensures ok <==> fault == NoFault && Insert(unique, tx, row).Some?
      ensures rows == if ok then tx + [row] else old(rows)
      ensures keyCache.Model() == if ok
                                  then old(keyCache.Model())[TmkId(row.tenant, row.version) := Held(old(plaintext[..]),
                                    now + keyCache.ttl)]
                                  else old(keyCache.Model())
    {
      var inserted := Insert(unique, tx, row);
      if fault != NoFault || inserted.None? { return false; }
      RowsOutliveDeactivation(kms, rows, row.tenant);
      RowsOutliveInsert(kms, tx, row, plaintext[..]);
      rows := inserted.value;
      CacheAndWipe(TmkId(row.tenant, row.version), plaintext, now);
      return true;
    }

    /** A tick of the cache's cleanup loop between two calls. */
    method CleanupTick(now: int)
      requires Valid()
      modifies keyCache, keyCache.Buffers()
      ensures Valid() && keyCache.Model() == Unexpired(old(keyCache.Model()), now)
      ensures forall b :: b in old(keyCache.callers) ==> b[..] == old(b[..])
    {
      keyCache.Cleanup(now);
    }

    /** How the re-wrap job uses a key: fetch, work with it, overwrite it. The cache is the same
        before and after the overwriting. */
    method UseActiveTmk(tenant: nat, now: int, queryFails: bool, kmsFails: bool) returns (ok: bool)
      requires Valid()
      modifies this, keyCache
      ensures Valid() && rows == old(rows)
      ensures ActiveRow(rows, tenant).Some? && !queryFails && !kmsFails ==>
        (ok <==> kms.decrypt(ActiveRow(rows, tenant).value.kmsKeyId, ActiveRow(rows, tenant).value.encryptedKey).Some?)
      ensures ok ==> ActiveRow(rows, tenant).Some?
    {
      var key := GetActiveTmk(tenant, now, queryFails, kmsFails);
      if key.Err? { return false; }
      ZeroBytes(key.value);
      return true;
    }
  }

  /** Deactivating rows keeps every row's plaintext, and the rows' identity. */
  lemma RowsOutliveDeactivation(kms: Provider, rows: Table, tenant: nat)
    ensures forall id, key :: PlaintextOf(kms, rows, id, key) ==> PlaintextOf(kms, Deactivate(rows, tenant), id, key)
    ensures VersionsUnique(rows) ==> VersionsUnique(Deactivate(rows, tenant))
  {
    forall id, key | PlaintextOf(kms, rows, id, key)
      ensures PlaintextOf(kms, Deactivate(rows, tenant), id, key)
    {
      var i :| 0 <= i < |rows| && rows[i].tenant == id.tenant && rows[i].version == id.version
               && kms.decrypt(rows[i].kmsKeyId, rows[i].encryptedKey) == Some(key);
      var after := Deactivate(rows, tenant);
      assert after[i].tenant == id.tenant && after[i].version == id.version
             && kms.decrypt(after[i].kmsKeyId, after[i].encryptedKey) == Some(key);
    }
  }

  /** A row that does not clash leaves the others' plaintexts alone and has its own. */
  lemma RowsOutliveInsert(kms: Provider, rows: Table, row: Row, plaintext: Bytes)
    requires kms.decrypt(row.kmsKeyId, row.encryptedKey) == Some(plaintext)
    ensures forall id, key :: PlaintextOf(kms, rows, id, key) ==> PlaintextOf(kms, rows + [row], id, key)
    ensures PlaintextOf(kms, rows + [row], TmkId(row.tenant, row.version), plaintext)
    ensures forall unique :: VersionsUnique(rows) && Insert(unique, rows, row).Some? ==> VersionsUnique(rows + [row])
  {
    var after := rows + [row];
    assert after[|rows|] == row;
    forall id, key | PlaintextOf(kms, rows, id, key)
      ensures PlaintextOf(kms, after, id, key)
    {
      var i :| 0 <= i < |rows| && rows[i].tenant == id.tenant && rows[i].version == id.version
               && kms.decrypt(rows[i].kmsKeyId, rows[i].encryptedKey) == Some(key);
      assert after[i] == rows[i];
    }
    forall unique | VersionsUnique(rows) && Insert(unique, rows, row).Some?
      ensures VersionsUnique(after)
    {
      assert forall i :: 0 <= i < |rows| ==> !Clash(unique, rows[i], row);
    }
  }

  /** What the cache is allowed to say: a row has one plaintext, so a cached answer and an
      uncached decryption of the same row agree. */
  lemma CachedEqualsUncached(kms: Provider, rows: Table, row: Row, key: Bytes)
    requires VersionsUnique(rows) && row in rows
    requires PlaintextOf(kms, rows, TmkId(row.tenant, row.version), key)
    ensures kms.decrypt(row.kmsKeyId, row.encryptedKey) == Some(key)
  {
    var i :| 0 <= i < |rows| && rows[i].tenant == row.tenant && rows[i].version == row.version
             && kms.decrypt(rows[i].kmsKeyId, rows[i].encryptedKey) == Some(key);
    var j :| 0 <= j < |rows| && rows[j] == row;
    assert !(i < j) && !(j < i);
  }
}

/** The disk-tier cache: a byte budget, time-to-live, least-recently-used eviction, and a
    running usage counter. */
module L2Storage {
  import opened Wrappers
  import opened Utf8

  type Key = string
  type Digest = string

  datatype Entry = Entry(data: Bytes, size: nat, createdAt: int, accessedAt: int, ttl: int, digest: Digest)

  type Entries = map<Key, Entry>

  /** `dropped` is history: the total size of the entries `Get` has thrown away. */
  datatype State = State(entries: Entries, usage: int, dropped: nat)

  datatype Config = Config(maxSize: int, digest: Bytes -> Digest)

  datatype Event =
    | Get(key: Key, now: int)
    // `encoded` is None when the value cannot be encoded; `order` is the sorted listing the
    // eviction works through; `diskOk` tells whether the files could be written
    | Set(key: Key, encoded: Option<Bytes>, ttl: int, now: int, order: seq<Key>, diskOk: bool)
    | Delete(key: Key)
    | Cleanup(now: int)
    // a holder of bytes returned by an earlier hit overwrites them in place
    | Tamper(key: Key, data: Bytes)

  predicate Expired(e: Entry, now: int) {
    e.ttl > 0 && now - e.createdAt > e.ttl
  }

  predicate Intact(c: Config, e: Entry) {
    c.digest(e.data) == e.digest
  }

  /** The bytes a lookup returns. */
  function Hit(c: Config, s: State, key: Key, now: int): Option<Bytes> {
    if key in s.entries && !Expired(s.entries[key], now) && Intact(c, s.entries[key]) then Some(s.entries[key].data)
      else None
  }

  /** `order` lists every entry once, oldest access first; ties may fall either way. */
  ghost predicate ByAccess(entries: Entries, order: seq<Key>) {
    && (forall i :: 0 <= i < |order| ==> order[i] in entries)
    && (forall k :: k in entries ==> k in order)
    && (forall i, j :: 0 <= i < j < |order| ==> order[i] != order[j])
    && (forall i, j :: 0 <= i < j < |order| ==>
          order[i] in entries && order[j] in entries
          && entries[order[i]].accessedAt <= entries[order[j]].accessedAt)
  }

  /** The eviction loop: from the front of the listing until enough is freed. */
  function Evict(s: State, order: seq<Key>, freed: int, needed: int): State
    decreases |order|
  {
    if order == [] || freed >= needed then s
    else if order[0] !in s.entries then Evict(s, order[1..], freed, needed)
    else
      var e := s.entries[order[0]];
      Evict(s.(entries := s.entries - {order[0]}, usage := s.usage - e.size), order[1..], freed + e.size, needed)
  }

  function MakeRoom(c: Config, s: State, size: nat, order: seq<Key>): State {
    if s.usage + size > c.maxSize then Evict(s, order, 0, s.usage + size - c.maxSize) else s
  }

  function Store(s: State, key: Key, e: Entry): State {
    var usage := if key in s.entries then s.usage - s.entries[key].size else s.usage;
    s.(entries := s.entries[key := e], usage := usage + e.size)
  }

  function NewEntry(c: Config, data: Bytes, ttl: int, now: int): Entry {
    Entry(data, |data|, now, now, ttl, c.digest(data))
  }

  /** The total size of a set of entries. */
  ghost function LiveSum(entries: Entries): nat
    decreases |entries|
  {
    if entries == map[] then 0
    else
      var k :| k in entries;
      entries[k].size + LiveSum(entries - {k})
  }

  function Unexpired(entries: Entries, now: int): Entries {
    map k | k in entries && !Expired(entries[k], now) :: entries[k]
  }

  function ExpiredOnly(entries: Entries, now: int): Entries {
    map k | k in entries && Expired(entries[k], now) :: entries[k]
  }

  ghost function Next(c: Config, s: State, ev: Event): State {
    match ev
    case Get(key, now) =>
      if key !in s.entries then s
      else if Expired(s.entries[key], now) || !Intact(c, s.entries[key]) then
        s.(entries := s.entries - {key}, dropped := s.dropped + s.entries[key].size)
      else s.(entries := s.entries[key := s.entries[key].(accessedAt := now)])
    case Set(key, encoded, ttl, now, order, diskOk) =>
      if encoded.None? then s
      else
        var roomy := MakeRoom(c, s, |encoded.value|, order);
        if diskOk then Store(roomy, key, NewEntry(c, encoded.value, ttl, now)) else roomy
    case Delete(key) =>
      if key !in s.entries then s
      else s.(entries := s.entries - {key}, usage := s.usage - s.entries[key].size)
    case Cleanup(now) =>
      s.(entries := Unexpired(s.entries, now), usage := s.usage - LiveSum(ExpiredOnly(s.entries, now)))
    case Tamper(key, data) =>
      if key in s.entries && |data| == |s.entries[key].data|
        then s.(entries := s.entries[key := s.entries[key].(data := data)]) else s
  }

  /** An eviction works through a listing of the entries by access time. */
  ghost predicate Enabled(s: State, ev: Event) {
    ev.Set? ==> ByAccess(s.entries, ev.order)
  }

  ghost predicate ValidRun(c: Config, s: State, evs: seq<Event>)
    decreases |evs|
  {
    evs == [] || (Enabled(s, evs[0]) && ValidRun(c, Next(c, s, evs[0]), evs[1..]))
  }

  ghost function Run(c: Config, s: State, evs: seq<Event>): State
    decreases |evs|
  {
    if evs == [] then s else Run(c, Next(c, s, evs[0]), evs[1..])
  }

  ghost predicate IsEmpty(s: State) {
    s.entries.Keys == {} && s.usage == 0 && s.dropped == 0
  }

  // ---------- Sums of sizes ----------

  lemma {:induction false} LiveSumRemove(entries: Entries, k: Key)
    requires k in entries
    ensures LiveSum(entries) == entries[k].size + LiveSum(entries - {k})
    decreases |entries|
  {
    var p :| p in entries && LiveSum(entries) == entries[p].size + LiveSum(entries - {p});
    if p != k {
      LiveSumRemove(entries - {p}, k);
      LiveSumRemove(entries - {k}, p);
      assert entries - {p} - {k} == entries - {k} - {p};
    }
  }

  lemma LiveSumPut(entries: Entries, k: Key, e: Entry)
    ensures LiveSum(entries[k := e]) == e.size + LiveSum(entries - {k})
  {
    LiveSumRemove(entries[k := e], k);
    assert entries[k := e] - {k} == entries - {k};
  }

  lemma {:induction false} LiveSumUnion(a: Entries, b: Entries)
    requires a.Keys !! b.Keys
    ensures LiveSum(a + b) == LiveSum(a) + LiveSum(b)
    decreases |b|
  {
    if b == map[] {
      assert a + b == a;
    } else {
      var k :| k in b;
      LiveSumUnion(a, b - {k});
      LiveSumUnionStep(a, b, k);
    }
  }

  lemma LiveSumUnionStep(a: Entries, b: Entries, k: Key)
    requires a.Keys !! b.Keys && k in b
    requires LiveSum(a + (b - {k})) == LiveSum(a) + LiveSum(b - {k})
    ensures LiveSum(a + b) == LiveSum(a) + LiveSum(b)
  {
    UnionMinus(a, b, k);
    LiveSumRemove(b, k);
    LiveSumRemove(a + b, k);
  }

  lemma UnionMinus(a: Entries, b: Entries, k: Key)
    requires a.Keys !! b.Keys && k in b
    ensures (a + b) - {k} == a + (b - {k}) && (a + b)[k] == b[k]
  {
  }

  /** The live total is that of the entries a cleanup keeps plus that of those it removes. */
  lemma LiveSumSplit(entries: Entries, now: int)
    ensures LiveSum(entries) == LiveSum(Unexpired(entries, now)) + LiveSum(ExpiredOnly(entries, now))
  {
    LiveSumUnion(Unexpired(entries, now), ExpiredOnly(entries, now));
    assert entries == Unexpired(entries, now) + ExpiredOnly(entries, now);
  }

  // ---------- Accounting and the byte bound ----------

  /** Exact accounting: the counter is the live total plus everything `Get` threw away. */
  ghost predicate Balanced(s: State) {
    && s.usage == LiveSum(s.entries) + s.dropped
    && forall k :: k in s.entries ==> s.entries[k].size == |s.entries[k].data|
  }

  /** The real bound on the bytes held: what lookups threw away is missing from the budget. */
  ghost predicate Bounded(c: Config, s: State) {
    LiveSum(s.entries) + s.dropped <= c.maxSize || |s.entries| <= 1
  }

  lemma {:induction false} EvictBalanced(s: State, order: seq<Key>, freed: int, needed: int)
    requires Balanced(s)
    ensures var after := Evict(s, order, freed, needed);
            && Balanced(after) && after.dropped == s.dropped && after.usage <= s.usage
            && after.entries.Keys <= s.entries.Keys
            && (forall k :: k in after.entries ==> after.entries[k] == s.entries[k])
            && ((forall k :: k in s.entries ==> k in order)
              ==> after.entries == map[] || after.usage <= s.usage - (needed - freed))
    decreases |order|
  {
    if order != [] && freed < needed {
      var k := order[0];
      if k in s.entries {
        LiveSumRemove(s.entries, k);
        EvictBalanced(s.(entries := s.entries - {k}, usage := s.usage - s.entries[k].size), order[1..],
          freed + s.entries[k].size, needed);
      } else {
        EvictBalanced(s, order[1..], freed, needed);
      }
      assert order == [k] + order[1..];
    }
  }

  lemma StoreAccounts(s: State, key: Key, e: Entry)
    requires Balanced(s) && e.size == |e.data|
    ensures var after := Store(s, key, e);
            && Balanced(after) && after.dropped == s.dropped
            && LiveSum(after.entries) <= LiveSum(s.entries) + e.size
            && (s.entries == map[] ==> |after.entries| == 1)
  {
    LiveSumPut(s.entries, key, e);
    if key in s.entries {
      LiveSumRemove(s.entries, key);
    } else {
      assert s.entries - {key} == s.entries;
    }
  }

  lemma GetKeepsBalance(c: Config, s: State, key: Key, now: int)
    requires Balanced(s) && Bounded(c, s)
    ensures Balanced(Next(c, s, Get(key, now))) && Bounded(c, Next(c, s, Get(key, now)))
  {
    if key in s.entries {
      LiveSumRemove(s.entries, key);
      LiveSumPut(s.entries, key, s.entries[key].(accessedAt := now));
      SmallerMap(s.entries - {key}, s.entries);
      SmallerMap(s.entries[key := s.entries[key].(accessedAt := now)], s.entries);
    }
  }

  /** Nothing is held, or an entry of that size still fits the budget. */
  ghost predicate HasRoom(c: Config, s: State, size: nat) {
    s.entries == map[] || LiveSum(s.entries) + s.dropped + size <= c.maxSize
  }

  lemma UsageMakesRoom(c: Config, s: State, size: nat)
    requires Balanced(s) && (s.entries == map[] || s.usage + size <= c.maxSize)
    ensures HasRoom(c, s, size)
  {
  }

  lemma RoomMade(c: Config, s: State, size: nat, order: seq<Key>)
    requires Balanced(s) && Bounded(c, s) && ByAccess(s.entries, order)
    ensures var roomy := MakeRoom(c, s, size, order);
            Balanced(roomy) && Bounded(c, roomy) && HasRoom(c, roomy, size)
  {
    if s.usage + size > c.maxSize {
      EvictBalanced(s, order, 0, s.usage + size - c.maxSize);
      EvictBounded(c, s, order, 0, s.usage + size - c.maxSize);
    }
    UsageMakesRoom(c, MakeRoom(c, s, size, order), size);
  }

  lemma StoreFits(c: Config, s: State, key: Key, e: Entry)
    requires Balanced(s) && HasRoom(c, s, e.size) && e.size == |e.data|
    ensures Balanced(Store(s, key, e)) && Bounded(c, Store(s, key, e))
  {
    StoreAccounts(s, key, e);
  }

  lemma SetKeepsBalance(c: Config, s: State, ev: Event)
    requires Balanced(s) && Bounded(c, s) && ev.Set? && Enabled(s, ev)
    ensures Balanced(Next(c, s, ev)) && Bounded(c, Next(c, s, ev))
  {
    if ev.encoded.Some? {
      var size := |ev.encoded.value|;
      RoomMade(c, s, size, ev.order);
      StoreFits(c, MakeRoom(c, s, size, ev.order), ev.key, NewEntry(c, ev.encoded.value, ev.ttl, ev.now));
    }
  }

  lemma DeleteKeepsBalance(c: Config, s: State, key: Key)
    requires Balanced(s) && Bounded(c, s)
    ensures Balanced(Next(c, s, Delete(key))) && Bounded(c, Next(c, s, Delete(key)))
  {
    if key in s.entries {
      LiveSumRemove(s.entries, key);
      SmallerMap(s.entries - {key}, s.entries);
    }
  }

  lemma CleanupKeepsBalance(c: Config, s: State, now: int)
    requires Balanced(s) && Bounded(c, s)
    ensures Balanced(Next(c, s, Cleanup(now))) && Bounded(c, Next(c, s, Cleanup(now)))
  {
    LiveSumSplit(s.entries, now);
    SmallerMap(Unexpired(s.entries, now), s.entries);
  }

  lemma TamperKeepsBalance(c: Config, s: State, key: Key, data: Bytes)
    requires Balanced(s) && Bounded(c, s)
    ensures Balanced(Next(c, s, Tamper(key, data))) && Bounded(c, Next(c, s, Tamper(key, data)))
  {
    if key in s.entries && |data| == |s.entries[key].data| {
      LiveSumRemove(s.entries, key);
      LiveSumPut(s.entries, key, s.entries[key].(data := data));
      SmallerMap(s.entries[key := s.entries[key].(data := data)], s.entries);
    }
  }

  lemma StepKeepsBalance(c: Config, s: State, ev: Event)
    requires Balanced(s) && Bounded(c, s) && Enabled(s, ev)
    ensures Balanced(Next(c, s, ev)) && Bounded(c, Next(c, s, ev))
  {
    match ev
    case Get(key, now) => GetKeepsBalance(c, s, key, now);
    case Set(_, _, _, _, _, _) => SetKeepsBalance(c, s, ev);
    case Delete(key) => DeleteKeepsBalance(c, s, key);
    case Cleanup(now) => CleanupKeepsBalance(c, s, now);
    case Tamper(key, data) => TamperKeepsBalance(c, s, key, data);
  }

  lemma SmallerMap(a: Entries, b: Entries)
    requires a.Keys <= b.Keys
    ensures |a| <= |b|
  {
    assert |a| == |a.Keys| && |b| == |b.Keys|;
    assert b.Keys == a.Keys + (b.Keys - a.Keys);
  }

  /** Evicting never breaks the bound. */
  lemma EvictBounded(c: Config, s: State, order: seq<Key>, freed: int, needed: int)
    requires Balanced(s) && Bounded(c, s)
    ensures Bounded(c, Evict(s, order, freed, needed))
  {
    EvictBalanced(s, order, freed, needed);
    SmallerMap(Evict(s, order, freed, needed).entries, s.entries);
  }

  /** What the counter over-counts: only a lookup that throws an entry away adds to it, and it
      adds that entry's size. Nothing ever takes it back. */
  lemma DroppedOnlyByGet(c: Config, s: State, ev: Event)
    ensures Next(c, s, ev).dropped
      == s.dropped
         + (if ev.Get? && ev.key in s.entries && Hit(c, s, ev.key, ev.now).None?
            then s.entries[ev.key].size else 0)
  {
    if ev.Set? && ev.encoded.Some? {
      EvictKeepsDropped(s, ev.order, 0, s.usage + |ev.encoded.value| - c.maxSize);
    }
  }

  lemma {:induction false} EvictKeepsDropped(s: State, order: seq<Key>, freed: int, needed: int)
    ensures Evict(s, order, freed, needed).dropped == s.dropped
    decreases |order|
  {
    if order != [] && freed < needed {
      if order[0] in s.entries {
        EvictKeepsDropped(s.(entries := s.entries - {order[0]}, usage := s.usage - s.entries[order[0]].size),
          order[1..],
                          freed + s.entries[order[0]].size, needed);
      } else {
        EvictKeepsDropped(s, order[1..], freed, needed);
      }
    }
  }

  /** Over every run from an empty cache: the accounting is exact, the counter never goes
      negative, and the bytes held fit the budget unless a single entry is held. */
  lemma {:induction false} RunAccounting(c: Config, s: State, evs: seq<Event>)
    requires Balanced(s) && Bounded(c, s) && ValidRun(c, s, evs)
    ensures var after := Run(c, s, evs);
            Balanced(after) && Bounded(c, after) && after.usage >= after.dropped >= s.dropped
    decreases |evs|
  {
    if evs != [] {
      StepKeepsBalance(c, s, evs[0]);
      DroppedOnlyByGet(c, s, evs[0]);
      RunAccounting(c, Next(c, s, evs[0]), evs[1..]);
    }
  }

  /** The price of the over-count: once more than the whole budget has been thrown away by
      lookups, every successful store empties the cache first and leaves a single entry. */
  lemma OvercountDegradesToOneEntry(c: Config, s: State, key: Key, data: Bytes, ttl: int, now: int, order: seq<Key>)
    requires Balanced(s) && s.dropped > c.maxSize && ByAccess(s.entries, order)
    ensures Next(c, s, Set(key, Some(data), ttl, now, order, true)).entries == map[key := NewEntry(c, data, ttl, now)]
  {
    EvictBalanced(s, order, 0, s.usage + |data| - c.maxSize);
  }

  // ---------- Which entries go ----------

  /** How many entries of the listing an eviction takes. */
  function Victims(entries: Entries, order: seq<Key>, freed: int, needed: int): (n: nat)
    ensures n <= |order|
    decreases |order|
  {
    if order == [] || freed >= needed then 0
    else 1 + Victims(entries, order[1..], freed + SizeOf(entries, order[0]), needed)
  }

  function SizeOf(entries: Entries, k: Key): nat {
    if k in entries then entries[k].size else 0
  }

  function SizesOf(entries: Entries, keys: seq<Key>): nat {
    if keys == [] then 0 else SizeOf(entries, keys[0]) + SizesOf(entries, keys[1..])
  }

  lemma {:induction false} SizesOfSnoc(entries: Entries, keys: seq<Key>, k: Key)
    ensures SizesOf(entries, keys + [k]) == SizesOf(entries, keys) + SizeOf(entries, k)
  {
    if keys == [] {
      assert keys + [k] == [k];
    } else {
      assert (keys + [k])[1..] == keys[1..] + [k];
      SizesOfSnoc(entries, keys[1..], k);
    }
  }

  /** The prefix taken frees enough, unless it is the whole listing, and no shorter one does. */
  lemma {:induction false} VictimsMinimal(entries: Entries, order: seq<Key>, freed: int, needed: int)
    ensures var n := Victims(entries, order, freed, needed);
            && (n < |order| ==> freed + SizesOf(entries, order[..n]) >= needed)
            && (forall m :: 0 <= m < n ==> freed + SizesOf(entries, order[..m]) < needed)
    decreases |order|
  {
    if order != [] && freed < needed {
      var size := SizeOf(entries, order[0]);
      var n := Victims(entries, order, freed, needed);
      VictimsMinimal(entries, order[1..], freed + size, needed);
      assert order[..n][1..] == order[1..][..n - 1];
      forall m | 0 <= m < n
        ensures freed + SizesOf(entries, order[..m]) < needed
      {
        if m > 0 {
          assert order[..m][1..] == order[1..][..m - 1];
        }
      }
    }
  }

  /** Distinct entries of a listing. */
  ghost predicate Distinct(keys: seq<Key>) {
    forall i, j :: 0 <= i < j < |keys| ==> keys[i] != keys[j]
  }

  /** What an eviction leaves: everything but that prefix, with the counter lowered by its size. */
  lemma {:induction false} EvictTakesPrefix(s: State, order: seq<Key>, freed: int, needed: int)
    requires Distinct(order) && forall i :: 0 <= i < |order| ==> order[i] in s.entries
    ensures var n := Victims(s.entries, order, freed, needed);
            var after := Evict(s, order, freed, needed);
            && after.usage == s.usage - SizesOf(s.entries, order[..n])
            && after.entries == s.entries - Elements(order[..n])
    decreases |order|
  {
    var n := Victims(s.entries, order, freed, needed);
    if n == 0 {
      assert s.entries - Elements(order[..0]) == s.entries;
    } else {
      var k, rest := order[0], order[1..];
      var e := s.entries[k];
      var s' := s.(entries := s.entries - {k}, usage := s.usage - e.size);
      TailListed(s.entries, order);
      EvictTakesPrefix(s', rest, freed + e.size, needed);
      OthersSameSize(s.entries, k, rest, freed + e.size, needed);
      PrefixSplit(order, n);
      MinusElements(s.entries, k, rest[..n - 1]);
    }
  }

  lemma PrefixSplit(order: seq<Key>, n: nat)
    requires 0 < n <= |order|
    ensures order[..n] == [order[0]] + order[1..][..n - 1]
    ensures order[..n][0] == order[0] && order[..n][1..] == order[1..][..n - 1]
  {
  }

  lemma TailListed(entries: Entries, order: seq<Key>)
    requires Distinct(order) && order != [] && forall i :: 0 <= i < |order| ==> order[i] in entries
    ensures Distinct(order[1..]) && order[0] !in order[1..]
    ensures forall i :: 0 <= i < |order[1..]| ==> order[1..][i] in entries - {order[0]}
  {
    TailDistinct(order);
    assert forall i :: 0 <= i < |order[1..]| ==> order[1..][i] == order[i + 1];
  }

  lemma TailDistinct(order: seq<Key>)
    requires Distinct(order) && order != []
    ensures Distinct(order[1..]) && order[0] !in order[1..]
  {
  }

  function Elements(keys: seq<Key>): set<Key> {
    set k | k in keys
  }

  lemma MinusElements(entries: Entries, k: Key, keys: seq<Key>)
    ensures (entries - {k}) - Elements(keys) == entries - Elements([k] + keys)
  {
    assert Elements([k] + keys) == {k} + Elements(keys);
  }

  lemma {:induction false} OthersSameSize(entries: Entries, k: Key, rest: seq<Key>, freed: int, needed: int)
    requires k !in rest
    ensures Victims(entries - {k}, rest, freed, needed) == Victims(entries, rest, freed, needed)
    ensures forall m :: 0 <= m <= |rest| ==> SizesOf(entries - {k}, rest[..m]) == SizesOf(entries, rest[..m])
    decreases |rest|
  {
    if rest != [] {
      OthersSameSize(entries, k, rest[1..], freed + SizeOf(entries, rest[0]), needed);
      forall m | 0 <= m <= |rest|
        ensures SizesOf(entries - {k}, rest[..m]) == SizesOf(entries, rest[..m])
      {
        if m > 0 {
          assert rest[..m][1..] == rest[1..][..m - 1];
        }
      }
    }
  }

  /** Eviction is least-recently-used and minimal: the victims were accessed no later than any
      survivor, they free enough unless nothing is left, and sparing the last one would not. */
  lemma EvictionIsLruAndMinimal(s: State, order: seq<Key>, needed: int)
    requires Balanced(s) && ByAccess(s.entries, order) && needed > 0
    ensures var after := Evict(s, order, 0, needed);
            var n := Victims(s.entries, order, 0, needed);
            && (forall v, k :: v in s.entries && v !in after.entries && k in s.entries && k in after.entries ==>
                 s.entries[v].accessedAt <= s.entries[k].accessedAt)
            && s.usage - after.usage == SizesOf(s.entries, order[..n])
            && (after.entries == map[] || s.usage - after.usage >= needed)
            && (n > 0 ==> order[n - 1] !in after.entries
                          && s.usage - after.usage - s.entries[order[n - 1]].size < needed)
  {
    EvictTakesPrefix(s, order, 0, needed);
    VictimsAreOldest(s.entries, order, Victims(s.entries, order, 0, needed));
    VictimsFreeEnough(s.entries, order, needed);
  }

  lemma VictimsAreOldest(entries: Entries, order: seq<Key>, n: nat)
    requires ByAccess(entries, order) && n <= |order|
    ensures forall v, k :: v in entries && v in Elements(order[..n]) && k in entries && k !in Elements(order[..n]) ==>
              entries[v].accessedAt <= entries[k].accessedAt
  {
    forall v, k | v in entries && v in Elements(order[..n]) && k in entries && k !in Elements(order[..n])
      ensures entries[v].accessedAt <= entries[k].accessedAt
    {
      PrefixIsOlder(entries, order, n, v, k);
    }
  }

  lemma VictimsFreeEnough(entries: Entries, order: seq<Key>, needed: int)
    requires ByAccess(entries, order) && needed > 0
    ensures var n := Victims(entries, order, 0, needed);
            && (entries - Elements(order[..n]) == map[] || SizesOf(entries, order[..n]) >= needed)
            && (n > 0 ==> order[n - 1] in Elements(order[..n])
                          && SizesOf(entries, order[..n]) - entries[order[n - 1]].size < needed)
  {
    var n := Victims(entries, order, 0, needed);
    VictimsMinimal(entries, order, 0, needed);
    if n == |order| {
      WholeListing(entries, order);
      assert order[..n] == order;
    }
    if n > 0 {
      LastVictim(entries, order, n);
    }
  }

  lemma WholeListing(entries: Entries, order: seq<Key>)
    requires ByAccess(entries, order)
    ensures entries - Elements(order) == map[]
  {
    assert (entries - Elements(order)).Keys == {};
  }

  lemma PrefixIsOlder(entries: Entries, order: seq<Key>, n: nat, v: Key, k: Key)
    requires ByAccess(entries, order) && n <= |order|
    requires v in order[..n] && k in entries && k !in order[..n]
    ensures v in entries && entries[v].accessedAt <= entries[k].accessedAt
  {
    var i :| 0 <= i < |order[..n]| && order[..n][i] == v;
    var j :| 0 <= j < |order| && order[j] == k;
    assert forall m :: 0 <= m < n ==> order[m] in order[..n];
  }

  lemma LastVictim(entries: Entries, order: seq<Key>, n: nat)
    requires 0 < n <= |order| && order[n - 1] in entries
    ensures SizesOf(entries, order[..n]) == SizesOf(entries, order[..n - 1]) + entries[order[n - 1]].size
    ensures order[n - 1] in Elements(order[..n])
  {
    assert order[..n] == order[..n - 1] + [order[n - 1]];
    SizesOfSnoc(entries, order[..n - 1], order[n - 1]);
    assert order[..n][n - 1] == order[n - 1];
  }

  // ---------- Refinement of a plain map ----------

  /** What a caller last stored under a key. */
  datatype Stored = Stored(data: Bytes, at: int, ttl: int)

  type Plain = map<Key, Stored>

  /** The plain map: stores that succeed put, deletes remove, nothing else matters. */
  function PlainNext(m: Plain, ev: Event): Plain {
    match ev
    case Set(key, encoded, ttl, now, _, diskOk) =>
      if encoded.Some? && diskOk then m[key := Stored(encoded.value, now, ttl)] else m
    case Delete(key) => m - {key}
    case _ => m
  }

  function PlainRun(m: Plain, evs: seq<Event>): Plain
    decreases |evs|
  {
    if evs == [] then m else PlainRun(PlainNext(m, evs[0]), evs[1..])
  }

  /** Every cached entry stems from what the plain map holds for its key. */
  ghost predicate Refines(c: Config, s: State, m: Plain) {
    forall k :: k in s.entries ==>
      && k in m
      && s.entries[k].createdAt == m[k].at && s.entries[k].ttl == m[k].ttl
      && s.entries[k].digest == c.digest(m[k].data) && |s.entries[k].data| == |m[k].data|
  }

  /** And holds exactly its bytes, as long as nobody wrote into them. */
  ghost predicate SameBytes(s: State, m: Plain) {
    forall k :: k in s.entries ==> k in m && s.entries[k].data == m[k].data
  }

  lemma SetRefines(c: Config, s: State, m: Plain, ev: Event)
    requires Balanced(s) && Refines(c, s, m) && ev.Set?
    ensures Refines(c, Next(c, s, ev), PlainNext(m, ev))
    ensures SameBytes(s, m) ==> SameBytes(Next(c, s, ev), PlainNext(m, ev))
  {
    if ev.encoded.Some? {
      EvictBalanced(s, ev.order, 0, s.usage + |ev.encoded.value| - c.maxSize);
    }
  }

  lemma StepRefines(c: Config, s: State, m: Plain, ev: Event)
    requires Balanced(s) && Refines(c, s, m)
    ensures Refines(c, Next(c, s, ev), PlainNext(m, ev))
    ensures SameBytes(s, m) && !ev.Tamper? ==> SameBytes(Next(c, s, ev), PlainNext(m, ev))
  {
    if ev.Set? {
      SetRefines(c, s, m, ev);
    }
  }

  lemma {:induction false} RunRefines(c: Config, s: State, m: Plain, evs: seq<Event>)
    requires Balanced(s) && Bounded(c, s) && Refines(c, s, m) && ValidRun(c, s, evs)
    ensures Refines(c, Run(c, s, evs), PlainRun(m, evs))
    ensures SameBytes(s, m) && (forall i :: 0 <= i < |evs| ==> !evs[i].Tamper?)
            ==> SameBytes(Run(c, s, evs), PlainRun(m, evs))
    decreases |evs|
  {
    if evs != [] {
      StepRefines(c, s, m, evs[0]);
      StepKeepsBalance(c, s, evs[0]);
      RunRefines(c, Next(c, s, evs[0]), PlainNext(m, evs[0]), evs[1..]);
    }
  }

  /** Different byte strings with the same digest. */
  ghost predicate Collide(c: Config, a: Bytes, b: Bytes) {
    a != b && c.digest(a) == c.digest(b)
  }

  /** A hit in a state that refines a plain map: what the map holds for that key, not expired.
      If bytes handed out were written to, the digest decides. */
  lemma RefinedHit(c: Config, s: State, m: Plain, key: Key, now: int)
    requires Refines(c, s, m) && Hit(c, s, key, now).Some?
    ensures var hit := Hit(c, s, key, now).value;
            && key in m
            && !(m[key].ttl > 0 && now - m[key].at > m[key].ttl)
            && c.digest(hit) == c.digest(m[key].data)
            && (!Collide(c, hit, m[key].data) || SameBytes(s, m) ==> hit == m[key].data)
  {
  }

  /** After any run from an empty cache, a hit is what was last stored for that key, neither
      deleted nor expired since. */
  lemma HitIsLastStored(c: Config, s: State, m: Plain, evs: seq<Event>, key: Key, now: int)
    requires IsEmpty(s) && ValidRun(c, s, evs) && Hit(c, Run(c, s, evs), key, now).Some?
    ensures var hit := Hit(c, Run(c, s, evs), key, now).value;
            var plain := PlainRun(m, evs);
            && key in plain
            && !(plain[key].ttl > 0 && now - plain[key].at > plain[key].ttl)
            && c.digest(hit) == c.digest(plain[key].data)
            && (!Collide(c, hit, plain[key].data) || (forall i :: 0 <= i < |evs| ==> !evs[i].Tamper?) ==>
                  hit == plain[key].data)
  {
    EmptyIsSound(c, s);
    RunRefines(c, s, m, evs);
    RefinedHit(c, Run(c, s, evs), PlainRun(m, evs), key, now);
  }

  lemma EmptyIsSound(c: Config, s: State)
    requires IsEmpty(s)
    ensures Balanced(s) && Bounded(c, s)
  {
    assert s.entries == map[];
  }

  /** A successful store is visible at once, until its time-to-live passes. */
  lemma StoredIsHit(c: Config, s: State, key: Key, data: Bytes, ttl: int, at: int, order: seq<Key>, now: int)
    ensures var after := Next(c, s, Set(key, Some(data), ttl, at, order, true));
            Hit(c, after, key, now) == Some(data) <==> !(ttl > 0 && now - at > ttl)
  {
  }

  // ---------- Recency of use ----------

  /** When each key was last used: stored successfully, or found. */
  type Uses = map<Key, int>

  ghost function UseNext(c: Config, s: State, last: Uses, ev: Event): Uses {
    match ev
    case Set(key, encoded, _, now, _, diskOk) => if encoded.Some? && diskOk then last[key := now] else last
    case Get(key, now) => if Hit(c, s, key, now).Some? then last[key := now] else last
    case _ => last
  }

  ghost function UseRun(c: Config, s: State, last: Uses, evs: seq<Event>): Uses
    decreases |evs|
  {
    if evs == [] then last else UseRun(c, Next(c, s, evs[0]), UseNext(c, s, last, evs[0]), evs[1..])
  }

  /** The access times in the cache are the times of last use. */
  ghost predicate Tracks(s: State, last: Uses) {
    forall k :: k in s.entries ==> k in last && s.entries[k].accessedAt == last[k]
  }

  lemma SetTracks(c: Config, s: State, last: Uses, ev: Event)
    requires Balanced(s) && Tracks(s, last) && ev.Set?
    ensures Tracks(Next(c, s, ev), UseNext(c, s, last, ev))
  {
    if ev.encoded.Some? {
      EvictBalanced(s, ev.order, 0, s.usage + |ev.encoded.value| - c.maxSize);
    }
  }

  lemma StepTracks(c: Config, s: State, last: Uses, ev: Event)
    requires Balanced(s) && Tracks(s, last)
    ensures Tracks(Next(c, s, ev), UseNext(c, s, last, ev))
  {
    if ev.Set? {
      SetTracks(c, s, last, ev);
    }
  }

  lemma {:induction false} RunTracks(c: Config, s: State, last: Uses, evs: seq<Event>)
    requires Balanced(s) && Bounded(c, s) && Tracks(s, last) && ValidRun(c, s, evs)
    ensures Tracks(Run(c, s, evs), UseRun(c, s, last, evs)) && Balanced(Run(c, s, evs))
    decreases |evs|
  {
    if evs != [] {
      StepTracks(c, s, last, evs[0]);
      StepKeepsBalance(c, s, evs[0]);
      RunTracks(c, Next(c, s, evs[0]), UseNext(c, s, last, evs[0]), evs[1..]);
    }
  }

  /** What a store evicts is decided before it puts its own entry. */
  lemma EvictedMakingRoom(c: Config, s: State, ev: Event, v: Key, k: Key)
    requires ev.Set? && ev.encoded.Some? && v in s.entries && v !in Next(c, s, ev).entries
    requires k in s.entries && k in Next(c, s, ev).entries && k != ev.key
    ensures var roomy := MakeRoom(c, s, |ev.encoded.value|, ev.order).entries; v !in roomy && k in roomy
  {
  }

  lemma EvictedUsedEarlier(c: Config, s: State, last: Uses, ev: Event, v: Key, k: Key)
    requires Balanced(s) && Tracks(s, last) && ev.Set? && ev.encoded.Some? && Enabled(s, ev)
    requires v in s.entries && v !in Next(c, s, ev).entries
    requires k in s.entries && k in Next(c, s, ev).entries && k != ev.key
    ensures v in last && k in last && last[v] <= last[k]
  {
    EvictedMakingRoom(c, s, ev, v, k);
    EvictionIsLruAndMinimal(s, ev.order, s.usage + |ev.encoded.value| - c.maxSize);
  }

  /** After any run from an empty cache, a store evicts only keys that were used no later than any
      that it spares. */
  lemma EvictedUsedLeastRecently(c: Config, start: State, last: Uses, evs: seq<Event>, s: State, ev: Event,
                                 v: Key, k: Key)
    requires IsEmpty(start) && ValidRun(c, start, evs) && s == Run(c, start, evs)
    requires ev.Set? && ev.encoded.Some? && Enabled(s, ev)
    requires v in s.entries && v !in Next(c, s, ev).entries
    requires k in s.entries && k in Next(c, s, ev).entries && k != ev.key
    ensures var uses := UseRun(c, start, last, evs); v in uses && k in uses && uses[v] <= uses[k]
  {
    EmptyIsSound(c, start);
    RunTracks(c, start, last, evs);
    EvictedUsedEarlier(c, s, UseRun(c, start, last, evs), ev, v, k);
  }

  // ---------- What each operation does, in full ----------

  /** A hit only notes the access; a miss on an entry that is expired or damaged throws it away,
      and any other miss changes nothing. */
  lemma GetExact(c: Config, s: State, key: Key, now: int)
    ensures var after := Next(c, s, Get(key, now));
            && after.usage == s.usage
            && (Hit(c, s, key, now).Some? ==>
                  && after.dropped == s.dropped && key in s.entries
                  && after.entries == s.entries[key := s.entries[key].(accessedAt := now)])
            && (Hit(c, s, key, now).None? && key in s.entries ==>
                  after.entries == s.entries - {key} && after.dropped == s.dropped + s.entries[key].size)
            && (key !in s.entries ==> after == s)
  {
  }

  /** A store that fits evicts nothing; otherwise what is evicted makes room for it, or is
      everything, and one of the victims could not have been spared. */
  lemma StoreEvictsJustEnough(c: Config, s: State, size: nat, order: seq<Key>)
    requires Balanced(s) && ByAccess(s.entries, order)
    ensures var roomy := MakeRoom(c, s, size, order);
            && (s.usage + size <= c.maxSize ==> roomy == s)
            && (roomy.entries == map[] || roomy.usage + size <= c.maxSize)
            && (roomy.entries.Keys != s.entries.Keys ==>
                  exists v :: v in s.entries && v !in roomy.entries
                              && roomy.usage + s.entries[v].size + size > c.maxSize)
  {
    var needed := s.usage + size - c.maxSize;
    if needed > 0 {
      EvictionIsLruAndMinimal(s, order, needed);
      var n := Victims(s.entries, order, 0, needed);
      if n == 0 {
        EvictTakesPrefix(s, order, 0, needed);
        assert s.entries - Elements(order[..0]) == s.entries;
      } else {
        var v := order[n - 1];
        assert v in s.entries;
      }
    }
  }

  /** A clean-up keeps exactly the entries whose time-to-live has not passed, unchanged. */
  lemma CleanupExact(c: Config, s: State, now: int)
    ensures var after := Next(c, s, Cleanup(now));
            && after.dropped == s.dropped
            && forall k ::
                 && (k in after.entries <==>
                       k in s.entries && !(s.entries[k].ttl > 0 && now - s.entries[k].createdAt > s.entries[k].ttl))
                 && (k in after.entries ==> after.entries[k] == s.entries[k])
  {
  }

  // ---------- The storage ----------

  class L2StorageImpl {
    const config: Config
    var entries: Entries
    var usage: int
    ghost var dropped: nat

    ghost function Snapshot(): State
      reads this
    {
      State(entries, usage, dropped)
    }

    ghost predicate Valid()
      reads this
    {
      Balanced(Snapshot()) && Bounded(config, Snapshot())
    }

    constructor (maxSize: int, digest: Bytes -> Digest)
      ensures Valid() && IsEmpty(Snapshot()) && config == Config(maxSize, digest)
    {
      config := Config(maxSize, digest);
      entries, usage, dropped := map[], 0, 0;
      new;
      EmptyIsSound(config, Snapshot());
    }

    method GetEntry(key: Key, now: int) returns (r: Option<Bytes>)
      requires Valid()
      modifies this
      ensures Valid() && Snapshot() == Next(config, old(Snapshot()), Get(key, now))
      ensures r == Hit(config, old(Snapshot()), key, now)
    {
      GetKeepsBalance(config, Snapshot(), key, now);
      if key !in entries { return None; }
      var entry := entries[key];
      if entry.ttl > 0 && now - entry.createdAt > entry.ttl {
        dropped := dropped + entry.size;
        entries := entries - {key};
        return None;
      }
      entries := entries[key := entry.(accessedAt := now)];
      assert entries - {key} == old(entries) - {key};
      if config.digest(entry.data) != entry.digest {
        dropped := dropped + entry.size;
        entries := entries - {key};
        return None;
      }
      return Some(entry.data);
    }

    method Oldest(keys: set<Key>) returns (k: Key)
      requires keys != {} && keys <= entries.Keys
      ensures k in keys && forall other :: other in keys ==> entries[k].accessedAt <= entries[other].accessedAt
    {
      OldestExists(entries, keys);
      k :| k in keys && forall other :: other in keys ==> entries[k].accessedAt <= entries[other].accessedAt;
    }

    /** The entries from the least to the most recently accessed. */
    method SortByAccess() returns (order: seq<Key>)
      ensures ByAccess(entries, order)
    {
      order := [];
      var rest := entries.Keys;
      while rest != {}
        invariant rest <= entries.Keys
        invariant forall k :: k in entries ==> k in order || k in rest
        invariant forall i :: 0 <= i < |order| ==> order[i] in entries && order[i] !in rest
        invariant Distinct(order)
        invariant forall i, j :: 0 <= i < j < |order| ==> entries[order[i]].accessedAt <= entries[order[j]].accessedAt
        invariant forall i, k :: 0 <= i < |order| && k in rest ==> entries[order[i]].accessedAt <= entries[k].accessedAt
        decreases rest
      {
        var k := Oldest(rest);
        order := order + [k];
        rest := rest - {k};
      }
    }

    method EvictLru(needed: int) returns (order: seq<Key>)
      modifies this`entries, this`usage
      ensures ByAccess(old(entries), order)
      ensures Snapshot() == Evict(old(Snapshot()), order, 0, needed)
    {
      order := SortByAccess();
      ListingPresent(entries, order);
      EvictInOrder(order, needed);
    }

    /** Removes entries from the front of the listing until enough is freed. */
    method EvictInOrder(order: seq<Key>, needed: int)
      requires Present(entries, order, 0)
      modifies this`entries, this`usage
      ensures Snapshot() == Evict(old(Snapshot()), order, 0, needed)
    {
      assert order[0..] == order;
      var freed := 0;
      var i := 0;
      while i < |order| && freed < needed
        invariant 0 <= i <= |order|
        invariant Evict(Snapshot(), order[i..], freed, needed) == Evict(old(Snapshot()), order, 0, needed)
        invariant Present(entries, order, i)
      {
        var key := order[i];
        EvictStep(Snapshot(), order, i, freed, needed);
        var entry := entries[key];
        usage := usage - entry.size;
        freed := freed + entry.size;
        entries := entries - {key};
        i := i + 1;
      }
    }

    /** Evicts if the counter says the new entry does not fit. */
    method MakeRoomFor(size: nat) returns (ghost order: seq<Key>)
      modifies this`entries, this`usage
      ensures ByAccess(old(entries), order)
      ensures Snapshot() == MakeRoom(config, old(Snapshot()), size, order)
    {
      if usage + size > config.maxSize {
        order := EvictLru(usage + size - config.maxSize);
      } else {
        order := SortByAccess();
      }
    }

    /** Replaces the entry of a key, if there is one. */
    method PutEntry(key: Key, entry: Entry)
      modifies this`entries, this`usage
      ensures Snapshot() == Store(old(Snapshot()), key, entry)
    {
      if key in entries {
        usage := usage - entries[key].size;
      }
      entries := entries[key := entry];
      usage := usage + entry.size;
    }

    method SetEntry(key: Key, encoded: Option<Bytes>, ttl: int, now: int, diskOk: bool)
      returns (ok: bool, ghost order: seq<Key>)
      requires Valid()
      modifies this
      ensures encoded.Some? ==> ByAccess(old(entries), order)
      ensures Valid() && Snapshot() == Next(config, old(Snapshot()), Set(key, encoded, ttl, now, order, diskOk))
      ensures ok <==> encoded.Some? && diskOk
    {
      if encoded.None? { return false, []; }
      var data := encoded.value;
      order := MakeRoomFor(|data|);
      SetKeepsBalance(config, old(Snapshot()), Set(key, encoded, ttl, now, order, diskOk));
      if !diskOk { return false, order; }
      PutEntry(key, Entry(data, |data|, now, now, ttl, config.digest(data)));
      return true, order;
    }

    method DeleteEntry(key: Key) returns (ok: bool)
      requires Valid()
      modifies this
      ensures Valid() && Snapshot() == Next(config, old(Snapshot()), Delete(key))
      ensures ok <==> key in old(entries)
    {
      DeleteKeepsBalance(config, Snapshot(), key);
      if key !in entries { return false; }
      usage := usage - entries[key].size;
      entries := entries - {key};
      return true;
    }

    method CleanupExpired(now: int)
      requires Valid()
      modifies this
      ensures Valid() && Snapshot() == Next(config, old(Snapshot()), Cleanup(now))
    {
      CleanupKeepsBalance(config, Snapshot(), now);
      var expiredKeys := CollectExpired(now);
      ExpiredAre(entries, expiredKeys, now);
      entries := entries - expiredKeys;
    }

    /** The first loop of a cleanup: notes the expired keys and lowers the counter by their sizes. */
    method CollectExpired(now: int) returns (expiredKeys: set<Key>)
      modifies this`usage
      ensures SortedOut(entries, expiredKeys, {}, now)
      ensures usage == old(usage) - LiveSum(Only(entries, expiredKeys))
    {
      expiredKeys := {};
      var todo := entries.Keys;
      SumNone(entries);
      while todo != {}
        invariant SortedOut(entries, expiredKeys, todo, now)
        invariant usage == old(usage) - LiveSum(Only(entries, expiredKeys))
        decreases todo
      {
        var k :| k in todo;
        if entries[k].ttl > 0 && now - entries[k].createdAt > entries[k].ttl {
          SumOneMore(entries, expiredKeys, k);
          expiredKeys := expiredKeys + {k};
          usage := usage - entries[k].size;
        }
        todo := todo - {k};
      }
    }
  }

  /** The first loop of a cleanup: of the entries looked at, exactly the expired are collected. */
  ghost predicate SortedOut(entries: Entries, expiredKeys: set<Key>, todo: set<Key>, now: int) {
    && todo <= entries.Keys
    && forall k :: k in expiredKeys <==> k in entries && k !in todo && Expired(entries[k], now)
  }

  /** The rest of the listing is distinct and still cached. */
  ghost predicate Present(entries: Entries, order: seq<Key>, i: nat) {
    Distinct(order) && forall j :: i <= j < |order| ==> order[j] in entries
  }

  lemma ListingPresent(entries: Entries, order: seq<Key>)
    requires ByAccess(entries, order)
    ensures Present(entries, order, 0) && order[0..] == order
  {
  }

  /** One turn of the eviction loop. */
  lemma EvictStep(s: State, order: seq<Key>, i: nat, freed: int, needed: int)
    requires i < |order| && freed < needed && Present(s.entries, order, i)
    ensures order[i] in s.entries && Present(s.entries - {order[i]}, order, i + 1)
    ensures var e := s.entries[order[i]];
            Evict(s, order[i..], freed, needed)
            == Evict(s.(entries := s.entries - {order[i]}, usage := s.usage - e.size), order[i + 1..], freed + e.size,
              needed)
  {
    assert order[i..][1..] == order[i + 1..];
  }

  function Only(entries: Entries, keys: set<Key>): Entries {
    map k | k in entries && k in keys :: entries[k]
  }

  lemma SumNone(entries: Entries)
    ensures LiveSum(Only(entries, {})) == 0
  {
    assert Only(entries, {}).Keys == {};
  }

  lemma SumOneMore(entries: Entries, keys: set<Key>, k: Key)
    requires k in entries && k !in keys
    ensures LiveSum(Only(entries, keys + {k})) == LiveSum(Only(entries, keys)) + entries[k].size
  {
    LiveSumRemove(Only(entries, keys + {k}), k);
    assert Only(entries, keys + {k}) - {k} == Only(entries, keys);
  }

  lemma ExpiredAre(entries: Entries, keys: set<Key>, now: int)
    requires SortedOut(entries, keys, {}, now)
    ensures Only(entries, keys) == ExpiredOnly(entries, now)
    ensures entries - keys == Unexpired(entries, now)
  {
  }

  lemma OldestExists(entries: Entries, keys: set<Key>)
    requires keys != {} && keys <= entries.Keys
    ensures exists k ::
              k in keys && forall other :: other in keys ==> entries[k].accessedAt <= entries[other].accessedAt
    decreases keys
  {
    var any :| any in keys;
    if keys != {any} {
      var others := keys - {any};
      OldestExists(entries, others);
      var best :|
        best in others && forall other :: other in others ==> entries[best].accessedAt <= entries[other].accessedAt;
      var oldest := if entries[any].accessedAt < entries[best].accessedAt then any else best;
      assert oldest in keys
        && forall other :: other in keys ==> entries[oldest].accessedAt <= entries[other].accessedAt;
    }
  }
}

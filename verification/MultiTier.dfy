/** The remote-artifact cache: Redis in front of disk files, with hits on disk promoted to Redis
    by a goroutine that may run at any later time. The cloud tier is disabled by the constructor. */
module MultiTier {
  import opened Wrappers
  import opened Utf8
  import opened Paths

  type Key = string
  type Promotion = nat

  const L1_MAX_SIZE := 10 * 1024 * 1024

  datatype Artifact = Artifact(data: Bytes, contentType: Bytes)

  /** How a file write ends: complete, refused before the file is touched, or cut short. */
  datatype Outcome = Whole | Refused | Torn(n: nat)

  // ---------- Paths ----------

  function Bucket(key: Key): string {
    if |key| < 2 then "default" else key[..2]
  }

  /** The file of a key below the cache directory. */
  function DataPath(base: Path, key: Key): Path {
    Resolve(base, Split(Bucket(key), '/') + Split(key, '/'))
  }

  function WithMeta(path: Path): Path {
    if path == [] then [".meta"] else path[..|path| - 1] + [path[|path| - 1] + ".meta"]
  }

  function MetaPath(base: Path, key: Key): Path {
    WithMeta(DataPath(base, key))
  }

  /** Different keys have different files, and no key's file is a metadata file. */
  ghost predicate Separate(base: Path, keys: set<Key>) {
    && (forall a, b :: a in keys && b in keys && a != b ==> DataPath(base, a) != DataPath(base, b))
    && (forall a, b :: a in keys && b in keys ==> MetaPath(base, a) != DataPath(base, b))
  }

  lemma MetaIsAnother(path: Path)
    ensures WithMeta(path) != path
  {
    if path != [] {
      assert WithMeta(path)[|path| - 1] == path[|path| - 1] + ".meta";
    }
  }

  // ---------- Which keys are separate ----------

  /** No segment of the key is empty, "." or "..", and its first two characters are not "..". */
  predicate Proper(key: Key) {
    AllOrdinary(Split(key, '/')) && !(|key| >= 2 && key[..2] == "..")
  }

  /** The directory that the bucket becomes. */
  function BucketDir(key: Key): string {
    if |key| < 2 then "default" else if key[1] == '/' then key[..1] else key[..2]
  }

  lemma FirstSegment(key: Key)
    requires Proper(key)
    ensures key != "" && key[0] != '/' && (|key| >= 2 && key[1] == '/' ==> Ordinary(key[..1]))
  {
    var i := IndexFrom(key, '/', 0);
    assert Ordinary(Split(key, '/')[0]);
    assert Split(key, '/')[0] == key[..i];
  }

  lemma BucketResolves(base: Path, key: Key)
    requires Proper(key)
    ensures Resolve(base, Split(Bucket(key), '/')) == base + [BucketDir(key)]
  {
    FirstSegment(key);
    var bucket := Bucket(key);
    var i := IndexFrom(bucket, '/', 0);
    if |key| >= 2 && key[1] == '/' {
      assert i == 1 && bucket[..1] == key[..1] && bucket[2..] == "";
      assert Split(bucket, '/') == [key[..1]] + [""];
      ResolveAppend(base, [key[..1]], [""]);
      ResolveOrdinary(base, [key[..1]]);
    } else {
      assert i == |bucket|;
      assert Split(bucket, '/') == [BucketDir(key)];
      ResolveOrdinary(base, [BucketDir(key)]);
    }
  }

  lemma ProperPath(base: Path, key: Key)
    requires Proper(key)
    ensures DataPath(base, key) == base + [BucketDir(key)] + Split(key, '/')
  {
    ResolveAppend(base, Split(Bucket(key), '/'), Split(key, '/'));
    BucketResolves(base, key);
    ResolveOrdinary(base + [BucketDir(key)], Split(key, '/'));
  }

  lemma MetaOfLast(front: Path, parts: seq<string>)
    requires parts != []
    ensures WithMeta(front + parts) == front + WithLast(parts, ".meta")
  {
    assert (front + parts)[|front + parts| - 1] == parts[|parts| - 1];
    assert (front + parts)[..|front + parts| - 1] == front + parts[..|parts| - 1];
  }

  lemma ProperMetaPath(base: Path, key: Key)
    requires Proper(key)
    ensures MetaPath(base, key) == base + [BucketDir(key)] + Split(key + ".meta", '/')
  {
    ProperPath(base, key);
    SplitSuffix(key, '/', ".meta");
    MetaOfLast(base + [BucketDir(key)], Split(key, '/'));
  }

  lemma SamePath(base: Path, a: string, b: string, x: string, y: string)
    ensures base + [a] + Split(x, '/') == base + [b] + Split(y, '/') <==> a == b && x == y
  {
    var s, t := base + [a] + Split(x, '/'), base + [b] + Split(y, '/');
    assert s[|base|] == a && t[|base|] == b;
    assert s[|base| + 1..] == Split(x, '/') && t[|base| + 1..] == Split(y, '/');
    JoinSplit(x, '/');
    JoinSplit(y, '/');
  }

  lemma DataPathInjective(base: Path, a: Key, b: Key)
    requires Proper(a) && Proper(b) && DataPath(base, a) == DataPath(base, b)
    ensures a == b
  {
    ProperPath(base, a);
    ProperPath(base, b);
    SamePath(base, BucketDir(a), BucketDir(b), a, b);
  }

  /** One key's metadata file is another key's data file exactly when the second key is the
      first with ".meta" appended and the first has a bucket of its own. */
  lemma MetaClash(base: Path, a: Key, b: Key)
    requires Proper(a) && Proper(b)
    ensures MetaPath(base, a) == DataPath(base, b) <==> |a| >= 2 && b == a + ".meta"
  {
    ProperMetaPath(base, a);
    ProperPath(base, b);
    SamePath(base, BucketDir(a), BucketDir(b), a + ".meta", b);
    if b == a + ".meta" {
      assert |BucketDir(b)| <= 2;
      if |a| >= 2 {
        assert b[..1] == a[..1] && b[..2] == a[..2] && b[1] == a[1];
      }
    }
  }

  /** Proper keys, slashes included, are separate unless one is another's metadata name. */
  lemma ProperKeysSeparate(base: Path, keys: set<Key>)
    requires forall k :: k in keys ==> Proper(k)
    ensures Separate(base, keys) <==> forall a, b :: a in keys && b in keys ==> !(|a| >= 2 && b == a + ".meta")
  {
    forall a, b | a in keys && b in keys
      ensures MetaPath(base, a) == DataPath(base, b) <==> |a| >= 2 && b == a + ".meta"
      ensures a != b ==> DataPath(base, a) != DataPath(base, b)
    {
      MetaClash(base, a, b);
      if DataPath(base, a) == DataPath(base, b) {
        DataPathInjective(base, a, b);
      }
    }
  }

  // ---------- The tiers ----------

  type Writer = nat

  /** A file write under way: how many bytes have reached the file, and whether the file is still
      the one at the key's path. */
  datatype Writing = Writing(key: Key, artifact: Artifact, pos: nat, linked: bool)

  /** The last three fields are history: what was passed to `Set`, the keys of which two file
      writes overlapped, and those of which a file was read in the middle of a write or left
      there. */
  datatype State = State(
    base: Path,
    l1: map<Key, Artifact>,
    files: map<Path, Bytes>,
    writers: map<Writer, Writing>,
    pending: map<Promotion, (Key, Artifact)>,
    given: set<(Key, Bytes)>,
    crossed: set<Key>,
    partial: set<Key>)

  datatype Event =
    // a store: Redis, for small artifacts; then the file is truncated, written bit by bit, and
    // closed, whereupon the metadata is written if all bytes were
    | SetL1(key: Key, artifact: Artifact, l1Ok: bool)
    | Open(w: Writer, key: Key, artifact: Artifact)
    | Write(w: Writer, key: Key, n: nat)
    | Close(w: Writer, key: Key, meta: Outcome)
    // a lookup; `p` names the promotion it may start
    | Get(key: Key, l1Up: bool, diskUp: bool, p: Promotion)
    | Promote(p: Promotion, l1Ok: bool)
    | ExpireL1(key: Key)
    | Invalidate(key: Key, l1Ok: bool, dataOk: bool, metaOk: bool)

  function Written(files: map<Path, Bytes>, path: Path, content: Bytes, o: Outcome): map<Path, Bytes> {
    match o
    case Whole => files[path := content]
    case Refused => files
    case Torn(n) => files[path := content[..Least(n, |content|)]]
  }

  function Least(a: nat, b: nat): nat {
    if a < b then a else b
  }

  /** Bytes `from..to` of `data` put at that place in a file. A gap before them, left by another
      writer's truncation, reads as zeros. */
  function Overlay(file: Bytes, data: Bytes, from: nat, to: nat): (r: Bytes)
    requires from <= to <= |data|
  {
    if from == to then file
    else
      seq(if |file| < to then to else |file|,
          i requires 0 <= i => if from <= i < to then data[i] else if i < |file| then file[i] else 0)
  }

  /** "application/octet-stream". */
  const OCTET_STREAM: Bytes := [
    0x61, 0x70, 0x70, 0x6C, 0x69, 0x63, 0x61, 0x74, 0x69, 0x6F, 0x6E, 0x2F,
    0x6F, 0x63, 0x74, 0x65, 0x74, 0x2D, 0x73, 0x74, 0x72, 0x65, 0x61, 0x6D]

  function DiskGet(base: Path, files: map<Path, Bytes>, key: Key): Option<Artifact> {
    var path, metaPath := DataPath(base, key), MetaPath(base, key);
    if path !in files then None
    else
      var stored := metaPath in files && files[metaPath] != [];
      Some(Artifact(files[path], if stored then files[metaPath] else OCTET_STREAM))
  }

  /** What a lookup returns. */
  function Lookup(s: State, key: Key, l1Up: bool, diskUp: bool): Option<Artifact> {
    if l1Up && key in s.l1 then Some(s.l1[key])
    else if diskUp then DiskGet(s.base, s.files, key)
    else None
  }

  predicate Writes(s: State, w: Writer, key: Key) {
    w in s.writers && s.writers[w].key == key
  }

  /** The file of the key is open for writing. */
  predicate Busy(s: State, key: Key) {
    exists w :: w in s.writers && s.writers[w].key == key && s.writers[w].linked
  }

  /** And has not received all its bytes. */
  predicate Midway(s: State, key: Key) {
    exists w :: w in s.writers && s.writers[w].key == key && s.writers[w].linked
                && s.writers[w].pos < |s.writers[w].artifact.data|
  }

  function Removed(s: State, key: Key, dataOk: bool, metaOk: bool): set<Path> {
    (if dataOk then {DataPath(s.base, key)} else {}) + (if metaOk then {MetaPath(s.base, key)} else {})
  }

  /** Who is writing to a removed file goes on writing, but nobody will find it. */
  function Unlinked(s: State, removed: set<Path>): map<Writer, Writing> {
    map w | w in s.writers ::
      s.writers[w].(linked := s.writers[w].linked && DataPath(s.base, s.writers[w].key) !in removed)
  }

  /** One event; an event that does not apply changes nothing. */
  function Next(s: State, ev: Event): State {
    match ev
    case SetL1(key, a, l1Ok) =>
      if |a.data| >= L1_MAX_SIZE then s
      else s.(given := s.given + {(key, a.data)}, l1 := if l1Ok then s.l1[key := a] else s.l1)
    case Open(w, key, a) =>
      if w in s.writers then s
      else s.(files := s.files[DataPath(s.base, key) := []],
              writers := s.writers[w := Writing(key, a, 0, true)],
              given := s.given + {(key, a.data)},
              crossed := if Busy(s, key) then s.crossed + {key} else s.crossed)
    case Write(w, key, n) => if Writes(s, w, key) then Advanced(s, w, n) else s
    case Close(w, key, meta) => if Writes(s, w, key) then Closed(s, w, meta) else s
    case Get(key, l1Up, diskUp, p) =>
      if l1Up && key in s.l1 then s
      else
        var found := Lookup(s, key, false, diskUp);
        var seen := if found.Some? && Midway(s, key) then s.(partial := s.partial + {key}) else s;
        if found.None? || |found.value.data| >= L1_MAX_SIZE || p in s.pending then seen
        else seen.(pending := s.pending[p := (key, found.value)])
    case Promote(p, l1Ok) =>
      if p !in s.pending then s
      else
        var (key, a) := s.pending[p];
        s.(pending := s.pending - {p}, l1 := if l1Ok then s.l1[key := a] else s.l1)
    case ExpireL1(key) => s.(l1 := s.l1 - {key})
    case Invalidate(key, l1Ok, dataOk, metaOk) =>
      var removed := Removed(s, key, dataOk, metaOk);
      s.(l1 := if l1Ok then s.l1 - {key} else s.l1, files := s.files - removed, writers := Unlinked(s, removed))
  }

  function Advanced(s: State, w: Writer, n: nat): State
    requires w in s.writers
  {
    var wr := s.writers[w];
    var path := DataPath(s.base, wr.key);
    var from := Least(wr.pos, |wr.artifact.data|);
    var to := Least(from + n, |wr.artifact.data|);
    var moved := s.(writers := s.writers[w := wr.(pos := to)]);
    if wr.linked && path in s.files then
      moved.(files := s.files[path := Overlay(s.files[path], wr.artifact.data, from, to)])
    else moved
  }

  function Closed(s: State, w: Writer, meta: Outcome): State
    requires w in s.writers
  {
    var wr := s.writers[w];
    var done := s.(writers := s.writers - {w});
    if wr.pos >= |wr.artifact.data| then
      done.(files := Written(s.files, MetaPath(s.base, wr.key), wr.artifact.contentType, meta))
    else if wr.linked then done.(partial := s.partial + {wr.key})
    else done
  }

  function Exec(s: State, evs: seq<Event>): State
    decreases |evs|
  {
    if evs == [] then s else Exec(Next(s, evs[0]), evs[1..])
  }

  function KeyOf(ev: Event): Option<Key> {
    if ev.Promote? then None else Some(ev.key)
  }

  /** The run uses only these keys. */
  ghost predicate Uses(evs: seq<Event>, keys: set<Key>) {
    forall i :: 0 <= i < |evs| ==> KeyOf(evs[i]).Some? ==> KeyOf(evs[i]).value in keys
  }

  function Empty(base: Path): State {
    State(base, map[], map[], map[], map[], {}, {}, {})
  }

  lemma {:induction false} ExecConcat(s: State, a: seq<Event>, b: seq<Event>)
    ensures Exec(s, a + b) == Exec(Exec(s, a), b)
    decreases |a|
  {
    if a == [] {
      assert [] + b == b;
    } else {
      assert (a + b)[1..] == a[1..] + b;
      ExecConcat(Next(s, a[0]), a[1..], b);
    }
  }

  lemma OneEvent(s: State, ev: Event)
    ensures Exec(s, [ev]) == Next(s, ev)
  {
    assert [ev][1..] == [];
  }

  lemma TwoEvents(s: State, a: Event, b: Event)
    ensures Exec(s, [a, b]) == Next(Next(s, a), b)
  {
    assert [a, b][1..] == [b];
    OneEvent(Next(s, a), b);
  }

  lemma ThreeEvents(s: State, a: Event, b: Event, c: Event)
    ensures Exec(s, [a, b, c]) == Next(Next(Next(s, a), b), c)
  {
    assert [a, b, c][1..] == [b, c];
    TwoEvents(Next(s, a), b, c);
  }

  // ---------- Every hit was once stored ----------

  /** Every byte of `b` was at its place in something passed to `Set` for this key, or is a zero. */
  ghost predicate Stems(s: State, key: Key, b: Bytes) {
    forall i :: 0 <= i < |b| ==> b[i] == 0 || exists d :: (key, d) in s.given && i < |d| && d[i] == b[i]
  }

  /** `b` is the front part of something passed to `Set` for this key. */
  ghost predicate IsFront(s: State, key: Key, b: Bytes) {
    exists d :: (key, d) in s.given && b <= d
  }

  /** What can be said of bytes under this key: they stem from what was stored; if no two writes
      overlapped, they are the front part of one store; and if moreover no file was read in the
      middle of a write or left there, they are exactly what was stored. */
  ghost predicate Genuine(s: State, key: Key, b: Bytes) {
    && Stems(s, key, b)
    && (key !in s.crossed ==> IsFront(s, key, b))
    && (key !in s.crossed && key !in s.partial ==> (key, b) in s.given)
  }

  /** The same of the file, which for a moment may be in the middle of a write. */
  ghost predicate FileOk(s: State, key: Key) {
    var path := DataPath(s.base, key);
    path in s.files ==>
      && Stems(s, key, s.files[path])
      && (key !in s.crossed ==> IsFront(s, key, s.files[path]))
      && (key !in s.crossed && key !in s.partial && !Midway(s, key) ==> (key, s.files[path]) in s.given)
  }

  /** Who writes to the key's file; the only writer's file is as far as the writer is. */
  ghost predicate WriterOk(s: State, w: Writer) {
    w in s.writers ==>
      var wr := s.writers[w];
      var path := DataPath(s.base, wr.key);
      && (wr.key, wr.artifact.data) in s.given && wr.pos <= |wr.artifact.data|
      && (wr.linked ==> path in s.files)
      && (wr.linked && wr.key !in s.crossed ==> s.files[path] == wr.artifact.data[..wr.pos])
  }

  ghost predicate KeyOk(s: State, key: Key) {
    && FileOk(s, key)
    && (forall w :: Writes(s, w, key) ==> WriterOk(s, w))
    && (key !in s.crossed ==>
          forall v, w ::
            Writes(s, v, key) && Writes(s, w, key) && s.writers[v].linked && s.writers[w].linked ==> v == w)
  }

  ghost predicate Sound(s: State, keys: set<Key>) {
    RedisOk(s, keys) && PendingOk(s, keys) && forall k :: k in keys ==> KeyOk(s, k)
  }

  /** History only grows. */
  ghost predicate Later(s: State, s': State) {
    s.given <= s'.given && s.crossed <= s'.crossed && s.partial <= s'.partial && s'.base == s.base
  }

  lemma StemsStays(s: State, s': State, key: Key, b: Bytes)
    requires Stems(s, key, b) && Later(s, s')
    ensures Stems(s', key, b)
  {
    forall i | 0 <= i < |b| && b[i] != 0
      ensures exists d :: (key, d) in s'.given && i < |d| && d[i] == b[i]
    {
      var d :| (key, d) in s.given && i < |d| && d[i] == b[i];
      assert (key, d) in s'.given;
    }
  }

  lemma IsFrontStays(s: State, s': State, key: Key, b: Bytes)
    requires IsFront(s, key, b) && Later(s, s')
    ensures IsFront(s', key, b)
  {
    var d :| (key, d) in s.given && b <= d;
    assert (key, d) in s'.given;
  }

  lemma GenuineStays(s: State, s': State, key: Key, b: Bytes)
    requires Genuine(s, key, b) && Later(s, s')
    ensures Genuine(s', key, b)
  {
    StemsStays(s, s', key, b);
    if key !in s'.crossed {
      IsFrontStays(s, s', key, b);
    }
  }

  /** What the step does not touch of a key: its file, its writers, and whether writes crossed. */
  ghost predicate SameKey(s: State, s': State, key: Key) {
    var path := DataPath(s.base, key);
    && (path in s'.files <==> path in s.files) && (path in s.files ==> s'.files[path] == s.files[path])
    && (forall w :: Writes(s', w, key) <==> Writes(s, w, key))
    && (forall w :: Writes(s, w, key) ==> s'.writers[w] == s.writers[w])
    && (key in s'.crossed <==> key in s.crossed)
  }

  lemma SameKeyStays(s: State, s': State, key: Key)
    requires KeyOk(s, key) && Later(s, s') && SameKey(s, s', key)
    ensures KeyOk(s', key)
  {
    SameMidway(s, s', key);
    var path := DataPath(s.base, key);
    if path in s.files {
      StemsStays(s, s', key, s.files[path]);
      if key !in s.crossed {
        IsFrontStays(s, s', key, s.files[path]);
      }
    }
    forall w | Writes(s', w, key) ensures WriterOk(s', w) {
      assert Writes(s, w, key) && WriterOk(s, w);
    }
  }

  lemma SameMidway(s: State, s': State, key: Key)
    requires SameKey(s, s', key)
    ensures Midway(s', key) <==> Midway(s, key)
  {
    if w :| w in s.writers && s.writers[w].key == key && s.writers[w].linked
            && s.writers[w].pos < |s.writers[w].artifact.data| {
      assert Writes(s, w, key);
    }
    if w :| w in s'.writers && s'.writers[w].key == key && s'.writers[w].linked
            && s'.writers[w].pos < |s'.writers[w].artifact.data| {
      assert Writes(s', w, key);
    }
  }

  // ---------- What each step does to its own key ----------

  lemma OpenKeeps(s: State, ev: Event)
    requires ev.Open? && KeyOk(s, ev.key) && ev.w !in s.writers
    ensures KeyOk(Next(s, ev), ev.key)
  {
    var after, key, data := Next(s, ev), ev.key, ev.artifact.data;
    assert (key, data) in after.given && [] <= data && data[..0] == [];
    assert Writes(after, ev.w, key);
    if !Midway(after, key) {
      assert |data| == 0;
    }
    forall w | Writes(after, w, key) ensures WriterOk(after, w) {
      if w != ev.w {
        assert Writes(s, w, key) && WriterOk(s, w);
      }
    }
  }

  lemma OverlayStems(s: State, key: Key, file: Bytes, data: Bytes, from: nat, to: nat)
    requires Stems(s, key, file) && (key, data) in s.given && from <= to <= |data|
    ensures Stems(s, key, Overlay(file, data, from, to))
  {
    var r := Overlay(file, data, from, to);
    forall i | 0 <= i < |r| && r[i] != 0
      ensures exists d :: (key, d) in s.given && i < |d| && d[i] == r[i]
    {
      if from <= i < to && from != to {
        assert data[i] == r[i];
      } else {
        assert file[i] == r[i];
      }
    }
  }

  lemma OverlayExtends(data: Bytes, from: nat, to: nat)
    requires from <= to <= |data|
    ensures Overlay(data[..from], data, from, to) == data[..to]
  {
  }

  /** What a write does: the writer is further on, and so is the file if it is still the one. */
  lemma WriteShape(s: State, w: Writer, n: nat)
    requires w in s.writers && WriterOk(s, w)
    ensures var wr := s.writers[w];
            var path := DataPath(s.base, wr.key);
            var to := Least(wr.pos + n, |wr.artifact.data|);
            Advanced(s, w, n)
            == s.(writers := s.writers[w := wr.(pos := to)],
                  files := if wr.linked then s.files[path := Overlay(s.files[path], wr.artifact.data, wr.pos, to)]
                           else s.files)
  {
  }

  lemma LinkedWriteKeepsFile(s: State, key: Key, w: Writer, n: nat)
    requires KeyOk(s, key) && Writes(s, w, key) && s.writers[w].linked
    ensures FileOk(Advanced(s, w, n), key)
    ensures key !in s.crossed ==>
      var after := Advanced(s, w, n);
      after.files[DataPath(s.base, key)] == after.writers[w].artifact.data[..after.writers[w].pos]
  {
    var after, wr := Advanced(s, w, n), s.writers[w];
    var path, data := DataPath(s.base, key), wr.artifact.data;
    var to := Least(wr.pos + n, |data|);
    assert WriterOk(s, w);
    WriteShape(s, w, n);
    OverlayStems(s, key, s.files[path], data, wr.pos, to);
    StemsStays(s, after, key, after.files[path]);
    if key !in s.crossed {
      OverlayExtends(data, wr.pos, to);
      assert (key, data) in after.given;
      if !Midway(after, key) {
        assert Writes(after, w, key);
        assert data[..to] == data;
      }
    }
  }

  lemma WriteKeeps(s: State, ev: Event)
    requires ev.Write? && KeyOk(s, ev.key) && Writes(s, ev.w, ev.key)
    ensures KeyOk(Next(s, ev), ev.key)
  {
    var after, key := Next(s, ev), ev.key;
    assert WriterOk(s, ev.w);
    WriteShape(s, ev.w, ev.n);
    if s.writers[ev.w].linked {
      LinkedWriteKeepsFile(s, key, ev.w, ev.n);
    } else {
      UnlinkedMidway(s, after, key, ev.w);
    }
    forall w | Writes(after, w, key) ensures WriterOk(after, w) {
      assert Writes(s, w, key) && WriterOk(s, w);
    }
  }

  /** An unlinked writer does not count. */
  lemma UnlinkedMidway(s: State, s': State, key: Key, w: Writer)
    requires forall v :: v != w ==> (v in s'.writers <==> v in s.writers)
    requires forall v :: v != w && v in s.writers ==> s'.writers[v] == s.writers[v]
    requires (w in s.writers ==> !s.writers[w].linked || s.writers[w].pos >= |s.writers[w].artifact.data|)
    requires (w in s'.writers ==> !s'.writers[w].linked)
    ensures Midway(s', key) <==> Midway(s, key)
  {
    if v :| v in s.writers && s.writers[v].key == key && s.writers[v].linked
            && s.writers[v].pos < |s.writers[v].artifact.data| {
      assert v in s'.writers && s'.writers[v] == s.writers[v];
    }
    if v :| v in s'.writers && s'.writers[v].key == key && s'.writers[v].linked
            && s'.writers[v].pos < |s'.writers[v].artifact.data| {
      assert v in s.writers && s'.writers[v] == s.writers[v];
    }
  }

  /** The file of the key is as before, and so are its other writers. */
  lemma CloseLeaves(s: State, w: Writer, meta: Outcome)
    requires w in s.writers && MetaPath(s.base, s.writers[w].key) != DataPath(s.base, s.writers[w].key)
    ensures var key := s.writers[w].key;
            var path := DataPath(s.base, key);
            var after := Closed(s, w, meta);
            && after.writers == s.writers - {w} && after.crossed == s.crossed && after.given == s.given
            && (path in after.files <==> path in s.files) && (path in s.files ==> after.files[path] == s.files[path])
            && after.base == s.base && s.partial <= after.partial
            && (s.writers[w].linked && s.writers[w].pos < |s.writers[w].artifact.data| ==> key in after.partial)
  {
  }

  lemma CloseKeeps(s: State, ev: Event)
    requires ev.Close? && KeyOk(s, ev.key) && Writes(s, ev.w, ev.key)
    requires MetaPath(s.base, ev.key) != DataPath(s.base, ev.key)
    ensures KeyOk(Next(s, ev), ev.key)
  {
    CloseLeaves(s, ev.w, ev.meta);
    ClosedIsOk(s, Next(s, ev), ev.key, ev.w);
  }

  lemma ClosedIsOk(s: State, after: State, key: Key, w: Writer)
    requires KeyOk(s, key) && Writes(s, w, key) && Later(s, after)
    requires after.writers == s.writers - {w} && after.crossed == s.crossed
    requires var path := DataPath(s.base, key);
             (path in after.files <==> path in s.files) && (path in s.files ==> after.files[path] == s.files[path])
    requires s.writers[w].linked && s.writers[w].pos < |s.writers[w].artifact.data| ==> key in after.partial
    ensures KeyOk(after, key)
  {
    var path, wr := DataPath(s.base, key), s.writers[w];
    if path in s.files {
      StemsStays(s, after, key, s.files[path]);
      if key !in s.crossed {
        IsFrontStays(s, after, key, s.files[path]);
      }
    }
    if !wr.linked || wr.pos >= |wr.artifact.data| {
      UnlinkedMidway(s, after, key, w);
    }
    forall v | Writes(after, v, key) ensures WriterOk(after, v) {
      assert Writes(s, v, key) && WriterOk(s, v);
    }
  }

  lemma InvalidateKeeps(s: State, ev: Event)
    requires ev.Invalidate? && KeyOk(s, ev.key) && MetaPath(s.base, ev.key) != DataPath(s.base, ev.key)
    ensures KeyOk(Next(s, ev), ev.key)
  {
    var after, key := Next(s, ev), ev.key;
    if ev.dataOk {
      forall w | Writes(after, w, key) ensures WriterOk(after, w) {
        assert Writes(s, w, key) && WriterOk(s, w);
      }
    } else {
      assert forall w :: Writes(s, w, key) ==> after.writers[w] == s.writers[w];
      SameKeyStays(s, after, key);
    }
  }

  // ---------- What each step leaves alone ----------

  lemma WriteLeavesOthers(s: State, w: Writer, n: nat, key: Key)
    requires w in s.writers && s.writers[w].key != key && DataPath(s.base, s.writers[w].key) != DataPath(s.base, key)
    ensures SameKey(s, Advanced(s, w, n), key)
  {
  }

  lemma CloseLeavesOthers(s: State, w: Writer, meta: Outcome, key: Key)
    requires w in s.writers && s.writers[w].key != key && MetaPath(s.base, s.writers[w].key) != DataPath(s.base, key)
    ensures SameKey(s, Closed(s, w, meta), key)
  {
  }

  lemma InvalidateLeavesOthers(s: State, ev: Event, key: Key)
    requires ev.Invalidate? && DataPath(s.base, ev.key) != DataPath(s.base, key)
    requires MetaPath(s.base, ev.key) != DataPath(s.base, key)
    ensures SameKey(s, Next(s, ev), key)
  {
    assert forall w :: Writes(s, w, key) ==> Next(s, ev).writers[w] == s.writers[w];
  }

  lemma OpenLeavesOthers(s: State, ev: Event, key: Key)
    requires ev.Open? && ev.key != key && DataPath(s.base, ev.key) != DataPath(s.base, key)
    ensures SameKey(s, Next(s, ev), key)
  {
  }

  lemma OthersSame(s: State, keys: set<Key>, ev: Event, key: Key)
    requires Separate(s.base, keys) && key in keys && KeyOf(ev).Some? && ev.key in keys && ev.key != key
    ensures SameKey(s, Next(s, ev), key)
  {
    assert DataPath(s.base, ev.key) != DataPath(s.base, key) && MetaPath(s.base, ev.key) != DataPath(s.base, key);
    match ev
    case Open(_, _, _) => OpenLeavesOthers(s, ev, key);
    case Write(w, k, n) => if Writes(s, w, k) { WriteLeavesOthers(s, w, n, key); }
    case Close(w, k, meta) => if Writes(s, w, k) { CloseLeavesOthers(s, w, meta, key); }
    case Invalidate(_, _, _, _) => InvalidateLeavesOthers(s, ev, key);
    case _ =>
  }

  lemma StepIsLater(s: State, ev: Event)
    ensures Later(s, Next(s, ev))
  {
  }

  lemma OwnKeyKeeps(s: State, keys: set<Key>, ev: Event)
    requires Separate(s.base, keys) && KeyOf(ev).Some? && ev.key in keys && KeyOk(s, ev.key)
    ensures KeyOk(Next(s, ev), ev.key)
  {
    assert MetaPath(s.base, ev.key) != DataPath(s.base, ev.key);
    StepIsLater(s, ev);
    if ev.Open? && ev.w !in s.writers {
      OpenKeeps(s, ev);
    } else if ev.Write? && Writes(s, ev.w, ev.key) {
      WriteKeeps(s, ev);
    } else if ev.Close? && Writes(s, ev.w, ev.key) {
      CloseKeeps(s, ev);
    } else if ev.Invalidate? {
      InvalidateKeeps(s, ev);
    } else {
      SameKeyStays(s, Next(s, ev), ev.key);
    }
  }

  lemma KeysKeep(s: State, keys: set<Key>, ev: Event)
    requires Separate(s.base, keys) && (forall k :: k in keys ==> KeyOk(s, k))
    requires KeyOf(ev).Some? ==> KeyOf(ev).value in keys
    ensures forall k :: k in keys ==> KeyOk(Next(s, ev), k)
  {
    StepIsLater(s, ev);
    forall k | k in keys ensures KeyOk(Next(s, ev), k) {
      if KeyOf(ev) == Some(k) {
        OwnKeyKeeps(s, keys, ev);
      } else {
        if KeyOf(ev).Some? {
          OthersSame(s, keys, ev, k);
        }
        SameKeyStays(s, Next(s, ev), k);
      }
    }
  }

  /** A file read in the middle of a write is noted. */
  lemma GetNotes(s: State, key: Key, l1Up: bool, diskUp: bool, p: Promotion)
    ensures var after := Next(s, Get(key, l1Up, diskUp, p));
            && Later(s, after) && after.crossed == s.crossed
            && (!(l1Up && key in s.l1) && Lookup(s, key, l1Up, diskUp).Some? && Midway(s, key) ==> key in after.partial)
  {
  }

  /** What a lookup finds is genuine, once the lookup itself counts as a reading of the file. */
  lemma FoundIsGenuine(s: State, keys: set<Key>, key: Key, l1Up: bool, diskUp: bool, p: Promotion)
    requires Sound(s, keys) && key in keys && Lookup(s, key, l1Up, diskUp).Some?
    ensures Genuine(Next(s, Get(key, l1Up, diskUp, p)), key, Lookup(s, key, l1Up, diskUp).value.data)
  {
    var after, b := Next(s, Get(key, l1Up, diskUp, p)), Lookup(s, key, l1Up, diskUp).value.data;
    GetNotes(s, key, l1Up, diskUp, p);
    if l1Up && key in s.l1 {
      GenuineStays(s, after, key, b);
    } else {
      assert KeyOk(s, key);
      FileIsGenuine(s, after, key);
    }
  }

  lemma FileIsGenuine(s: State, after: State, key: Key)
    requires FileOk(s, key) && DataPath(s.base, key) in s.files
    requires Later(s, after) && after.crossed == s.crossed && (Midway(s, key) ==> key in after.partial)
    ensures Genuine(after, key, s.files[DataPath(s.base, key)])
  {
    var b := s.files[DataPath(s.base, key)];
    StemsStays(s, after, key, b);
    if key !in s.crossed {
      IsFrontStays(s, after, key, b);
    }
  }

  /** What Redis holds is small and genuine. */
  ghost predicate RedisOk(s: State, keys: set<Key>) {
    forall k :: k in s.l1 ==> k in keys && |s.l1[k].data| < L1_MAX_SIZE && Genuine(s, k, s.l1[k].data)
  }

  /** And so is what is on its way there. */
  ghost predicate PendingOk(s: State, keys: set<Key>) {
    forall p :: p in s.pending ==>
      && s.pending[p].0 in keys && |s.pending[p].1.data| < L1_MAX_SIZE
      && Genuine(s, s.pending[p].0, s.pending[p].1.data)
  }

  lemma RedisKeeps(s: State, keys: set<Key>, ev: Event)
    requires RedisOk(s, keys) && PendingOk(s, keys) && (KeyOf(ev).Some? ==> KeyOf(ev).value in keys)
    ensures RedisOk(Next(s, ev), keys)
  {
    var after := Next(s, ev);
    StepIsLater(s, ev);
    forall k | k in after.l1
      ensures k in keys && |after.l1[k].data| < L1_MAX_SIZE && Genuine(after, k, after.l1[k].data)
    {
      if ev.SetL1? && k == ev.key && |ev.artifact.data| < L1_MAX_SIZE && ev.l1Ok {
        GivenIsGenuine(after, k, ev.artifact.data);
      } else if ev.Promote? && ev.p in s.pending && k == s.pending[ev.p].0 && ev.l1Ok {
        GenuineStays(s, after, k, s.pending[ev.p].1.data);
      } else {
        GenuineStays(s, after, k, s.l1[k].data);
      }
    }
  }

  /** Where the promotions of the next state come from. */
  lemma PendingSource(s: State, ev: Event, p: Promotion)
    requires p in Next(s, ev).pending && !(p in s.pending && Next(s, ev).pending[p] == s.pending[p])
    ensures ev.Get? && p == ev.p && Lookup(s, ev.key, ev.l1Up, ev.diskUp).Some?
    ensures Next(s, ev).pending[p] == (ev.key, Lookup(s, ev.key, ev.l1Up, ev.diskUp).value)
    ensures |Next(s, ev).pending[p].1.data| < L1_MAX_SIZE
  {
  }

  lemma PendingKeeps(s: State, keys: set<Key>, ev: Event)
    requires Sound(s, keys) && (KeyOf(ev).Some? ==> KeyOf(ev).value in keys)
    ensures PendingOk(Next(s, ev), keys)
  {
    var after := Next(s, ev);
    StepIsLater(s, ev);
    forall p | p in after.pending
      ensures && after.pending[p].0 in keys && |after.pending[p].1.data| < L1_MAX_SIZE
              && Genuine(after, after.pending[p].0, after.pending[p].1.data)
    {
      if p in s.pending && after.pending[p] == s.pending[p] {
        GenuineStays(s, after, s.pending[p].0, s.pending[p].1.data);
      } else {
        PendingSource(s, ev, p);
        FoundIsGenuine(s, keys, ev.key, ev.l1Up, ev.diskUp, p);
      }
    }
  }

  lemma GivenIsGenuine(s: State, key: Key, b: Bytes)
    requires (key, b) in s.given
    ensures Genuine(s, key, b)
  {
    assert b <= b;
  }

  lemma UsesTail(evs: seq<Event>, keys: set<Key>)
    requires evs != [] && Uses(evs, keys)
    ensures Uses(evs[1..], keys)
  {
    forall i | 0 <= i < |evs[1..]| ensures KeyOf(evs[1..][i]).Some? ==> KeyOf(evs[1..][i]).value in keys {
      assert evs[1..][i] == evs[i + 1];
    }
  }

  lemma {:induction false} RunKeepsSound(s: State, keys: set<Key>, evs: seq<Event>)
    requires Separate(s.base, keys) && Sound(s, keys) && Uses(evs, keys)
    ensures Sound(Exec(s, evs), keys) && Exec(s, evs).base == s.base
    decreases |evs|
  {
    if evs != [] {
      KeysKeep(s, keys, evs[0]);
      RedisKeeps(s, keys, evs[0]);
      PendingKeeps(s, keys, evs[0]);
      StepIsLater(s, evs[0]);
      UsesTail(evs, keys);
      RunKeepsSound(Next(s, evs[0]), keys, evs[1..]);
    }
  }

  lemma EmptyIsSound(base: Path, keys: set<Key>)
    ensures Sound(Empty(base), keys)
  {
  }

  /** Under any interleaving of stores, lookups, invalidations, expiries, failed and overlapping
      writes and delayed promotions, a hit's bytes are genuine, the lookup itself counted; and
      Redis only holds small artifacts. */
  lemma HitsAreGenuine(base: Path, keys: set<Key>, evs: seq<Event>, key: Key, l1Up: bool, diskUp: bool, p: Promotion)
    requires Separate(base, keys) && Uses(evs, keys) && key in keys
    ensures var s := Exec(Empty(base), evs);
            var hit := Lookup(s, key, l1Up, diskUp);
            && (hit.Some? ==> Genuine(Next(s, Get(key, l1Up, diskUp, p)), key, hit.value.data))
            && (forall k :: k in s.l1 ==> |s.l1[k].data| < 10_485_760)
  {
    EmptyIsSound(base, keys);
    RunKeepsSound(Empty(base), keys, evs);
    if Lookup(Exec(Empty(base), evs), key, l1Up, diskUp).Some? {
      FoundIsGenuine(Exec(Empty(base), evs), keys, key, l1Up, diskUp, p);
    }
  }

  /** And while the only write of a key's file is under way, a lookup on disk returns exactly what
      that write has put there: all of it if and only if the write has put it all there. */
  lemma OverlappingLookupIff(base: Path, keys: set<Key>, evs: seq<Event>, w: Writer)
    requires Separate(base, keys) && Uses(evs, keys)
    requires var s := Exec(Empty(base), evs);
             w in s.writers && s.writers[w].key in keys && s.writers[w].linked && s.writers[w].key !in s.crossed
    ensures var s := Exec(Empty(base), evs);
            var wr := s.writers[w];
            var hit := Lookup(s, wr.key, false, true);
            && wr.pos <= |wr.artifact.data| && hit.Some? && hit.value.data == wr.artifact.data[..wr.pos]
            && (hit.value.data == wr.artifact.data <==> wr.pos == |wr.artifact.data|)
  {
    EmptyIsSound(base, keys);
    RunKeepsSound(Empty(base), keys, evs);
    var s := Exec(Empty(base), evs);
    assert KeyOk(s, s.writers[w].key) && Writes(s, w, s.writers[w].key) && WriterOk(s, w);
  }

  /** In every run over these keys every hit is genuine. */
  ghost predicate AlwaysGenuine(base: Path, keys: set<Key>) {
    forall evs, key, l1Up, diskUp, p :: Uses(evs, keys) && key in keys ==>
      var s := Exec(Empty(base), evs);
      var hit := Lookup(s, key, l1Up, diskUp);
      hit.Some? ==> Genuine(Next(s, Get(key, l1Up, diskUp, p)), key, hit.value.data)
  }

  /** The condition is exact: hits are genuine in every run over a set of keys if and only if
      the keys are separate. */
  lemma GenuineIffSeparate(base: Path, keys: set<Key>)
    ensures AlwaysGenuine(base, keys) <==> Separate(base, keys)
  {
    if Separate(base, keys) {
      forall evs, key, l1Up, diskUp, p | Uses(evs, keys) && key in keys
        ensures var s := Exec(Empty(base), evs);
                var hit := Lookup(s, key, l1Up, diskUp);
                hit.Some? ==> Genuine(Next(s, Get(key, l1Up, diskUp, p)), key, hit.value.data)
      {
        HitsAreGenuine(base, keys, evs, key, l1Up, diskUp, p);
      }
    } else {
      var a, b :| a in keys && b in keys
                  && ((a != b && DataPath(base, a) == DataPath(base, b)) || MetaPath(base, a) == DataPath(base, b));
      SharedFileServesOther(base, keys, a, b);
    }
  }

  /** A store of one key is served as a hit of another that shares its file. */
  lemma SharedFileServesOther(base: Path, keys: set<Key>, a: Key, b: Key)
    requires a in keys && b in keys
    requires (a != b && DataPath(base, a) == DataPath(base, b)) || MetaPath(base, a) == DataPath(base, b)
    ensures !AlwaysGenuine(base, keys)
  {
    MetaIsAnother(DataPath(base, a));
    var evs := [Open(0, a, Artifact([], [])), Close(0, a, Whole)];
    EmptyStore(base, a);
    assert Uses(evs, keys);
    var s := Exec(Empty(base), evs);
    var hit := Lookup(s, b, false, true);
    NotGenuine(Next(s, Get(b, false, true, 0)), a, b, []);
    assert hit == Some(hit.value) && hit.value.data == [];
  }

  /** Storing nothing under `a`. */
  lemma EmptyStore(base: Path, a: Key)
    ensures var s := Exec(Empty(base), [Open(0, a, Artifact([], [])), Close(0, a, Whole)]);
            && s.base == base && s.given == {(a, [])} && s.crossed == {}
            && s.files == map[DataPath(base, a) := [], MetaPath(base, a) := []]
  {
    TwoEvents(Empty(base), Open(0, a, Artifact([], [])), Close(0, a, Whole));
  }

  lemma NotGenuine(s: State, a: Key, b: Key, data: Bytes)
    requires s.given == {(a, [])} && s.crossed == {} && a != b
    ensures !Genuine(s, b, data)
  {
  }

  // ---------- Freshness ----------

  /** The event stores or invalidates `key`. */
  predicate Touches(ev: Event, key: Key) {
    (ev.SetL1? || ev.Open? || ev.Write? || ev.Close? || ev.Invalidate?) && ev.key == key
  }

  /** The run neither stores nor invalidates `key`. */
  ghost predicate Leaves(evs: seq<Event>, key: Key) {
    forall i :: 0 <= i < |evs| ==> !Touches(evs[i], key)
  }

  lemma LeavesTail(evs: seq<Event>, key: Key)
    requires evs != [] && Leaves(evs, key)
    ensures !Touches(evs[0], key) && Leaves(evs[1..], key)
  {
    forall i | 0 <= i < |evs[1..]| ensures !Touches(evs[1..][i], key) {
      assert evs[1..][i] == evs[i + 1];
    }
  }

  /** No promotion of other bytes is under way. */
  ghost predicate NoStalePromotion(s: State, key: Key, data: Bytes) {
    forall p :: p in s.pending && s.pending[p].0 == key ==> s.pending[p].1.data == data
  }

  /** Every tier that has the key, and every promotion of it under way, has exactly these bytes. */
  ghost predicate Settled(s: State, key: Key, data: Bytes) {
    && (key in s.l1 ==> s.l1[key].data == data)
    && DataPath(s.base, key) in s.files && s.files[DataPath(s.base, key)] == data
    && NoStalePromotion(s, key, data)
  }

  /** The key's file is the same in both. */
  ghost predicate SameFile(s: State, s': State, key: Key) {
    var path := DataPath(s.base, key);
    && s'.base == s.base
    && (path in s'.files <==> path in s.files) && (path in s.files ==> s'.files[path] == s.files[path])
  }

  lemma UntouchedFile(s: State, keys: set<Key>, ev: Event, key: Key)
    requires Separate(s.base, keys) && key in keys && (KeyOf(ev).Some? ==> KeyOf(ev).value in keys) && !Touches(ev, key)
    ensures SameFile(s, Next(s, ev), key)
  {
    if KeyOf(ev).Some? && ev.key != key {
      OthersSame(s, keys, ev, key);
    }
  }

  lemma StepKeepsSettled(s: State, keys: set<Key>, ev: Event, key: Key, data: Bytes)
    requires Separate(s.base, keys) && key in keys && (KeyOf(ev).Some? ==> KeyOf(ev).value in keys)
    requires Settled(s, key, data) && !Touches(ev, key)
    ensures Settled(Next(s, ev), key, data) && Next(s, ev).base == s.base
  {
    UntouchedFile(s, keys, ev, key);
  }

  lemma {:induction false} RunKeepsSettled(s: State, keys: set<Key>, evs: seq<Event>, key: Key, data: Bytes)
    requires Separate(s.base, keys) && key in keys && Uses(evs, keys) && Leaves(evs, key) && Settled(s, key, data)
    ensures Settled(Exec(s, evs), key, data)
    decreases |evs|
  {
    if evs != [] {
      LeavesTail(evs, key);
      UsesTail(evs, keys);
      StepKeepsSettled(s, keys, evs[0], key, data);
      RunKeepsSettled(Next(s, evs[0]), keys, evs[1..], key, data);
    }
  }

  /** From `s` on, as long as the key is left alone, every hit returns these bytes, and a lookup
      that can read the disk is a hit. */
  ghost predicate StaysFresh(s: State, keys: set<Key>, key: Key, data: Bytes) {
    forall evs, l1Up, diskUp :: Uses(evs, keys) && Leaves(evs, key) ==> Fresh(Exec(s, evs), key, data, l1Up, diskUp)
  }

  ghost predicate Fresh(s: State, key: Key, data: Bytes, l1Up: bool, diskUp: bool) {
    var hit := Lookup(s, key, l1Up, diskUp);
    (hit.Some? ==> hit.value.data == data) && (diskUp ==> hit.Some?)
  }

  /** In any state: later hits return these bytes if and only if every tier that has the key and
      every promotion under way agrees on them. */
  lemma FreshIffSettled(s: State, keys: set<Key>, key: Key, data: Bytes)
    requires Separate(s.base, keys) && key in keys
    ensures StaysFresh(s, keys, key, data) <==> Settled(s, key, data)
  {
    if Settled(s, key, data) {
      forall evs, l1Up, diskUp | Uses(evs, keys) && Leaves(evs, key)
        ensures Fresh(Exec(s, evs), key, data, l1Up, diskUp)
      {
        RunKeepsSettled(s, keys, evs, key, data);
      }
    } else if p :| p in s.pending && s.pending[p].0 == key && s.pending[p].1.data != data {
      PromotionWins(s, keys, key, p);
      assert !Fresh(Exec(s, [Promote(p, true)]), key, data, true, true);
    } else {
      assert Exec(s, []) == s && Uses([], keys) && Leaves([], key);
      assert !Fresh(s, key, data, true, true) || !Fresh(s, key, data, false, true);
    }
  }

  /** The events on disk of one store that nothing interrupts. */
  function DiskScript(w: Writer, key: Key, a: Artifact, data: Outcome, meta: Outcome): seq<Event> {
    match data
    case Whole => [Open(w, key, a), Write(w, key, |a.data|), Close(w, key, meta)]
    case Torn(n) => [Open(w, key, a), Write(w, key, n), Close(w, key, Refused)]
    case Refused => []
  }

  function StoreScript(w: Writer, key: Key, a: Artifact, l1Ok: bool, data: Outcome, meta: Outcome): seq<Event> {
    (if |a.data| < L1_MAX_SIZE then [SetL1(key, a, l1Ok)] else []) + DiskScript(w, key, a, data, meta)
  }

  /** The states such a write goes through. */
  lemma WriteFresh(s: State, w: Writer, key: Key, a: Artifact, n: nat)
    requires w !in s.writers
    ensures var path := DataPath(s.base, key);
            var to := Least(n, |a.data|);
            var begun := Next(s, Open(w, key, a));
            Next(begun, Write(w, key, n))
            == begun.(files := s.files[path := a.data[..to]], writers := s.writers[w := Writing(key, a, to, true)])
  {
    var path := DataPath(s.base, key);
    OverlayExtends(a.data, 0, Least(n, |a.data|));
    assert a.data[..0] == [];
    var begun := Next(s, Open(w, key, a));
    assert begun.writers[w] == Writing(key, a, 0, true) && begun.files[path] == [];
  }

  lemma CloseFresh(s: State, w: Writer, key: Key, a: Artifact, pos: nat, meta: Outcome, rest: map<Writer, Writing>)
    requires w !in rest && s.writers == rest[w := Writing(key, a, pos, true)]
    ensures var after := Next(s, Close(w, key, meta));
            && after.base == s.base && after.l1 == s.l1 && after.pending == s.pending && after.writers == rest
            && after.files == if pos < |a.data| then s.files
                              else Written(s.files, MetaPath(s.base, key), a.contentType, meta)
  {
    assert s.writers - {w} == rest;
  }

  /** What the disk holds afterwards. */
  lemma DiskScriptWrites(s: State, w: Writer, key: Key, a: Artifact, data: Outcome, meta: Outcome)
    requires w !in s.writers
    ensures var after := Exec(s, DiskScript(w, key, a, data, meta));
            var written := Written(s.files, DataPath(s.base, key), a.data, data);
            && after.base == s.base && after.l1 == s.l1 && after.pending == s.pending && after.writers == s.writers
            && after.files == if !data.Whole? then written
                              else Written(written, MetaPath(s.base, key), a.contentType, meta)
  {
    if !data.Refused? {
      var n := if data.Whole? then |a.data| else data.n;
      var outcome := if data.Whole? then meta else Refused;
      ThreeEvents(s, Open(w, key, a), Write(w, key, n), Close(w, key, outcome));
      WriteFresh(s, w, key, a, n);
      var written := Next(Next(s, Open(w, key, a)), Write(w, key, n));
      CloseFresh(written, w, key, a, Least(n, |a.data|), outcome, s.writers);
      assert a.data[..|a.data|] == a.data;
    }
  }

  /** The disk holds exactly these bytes after the write: it was not cut short of them, or was
      refused over the same bytes. */
  ghost predicate DiskHas(s: State, key: Key, data: Bytes, o: Outcome) {
    match o
    case Whole => true
    case Torn(n) => n >= |data|
    case Refused => DataPath(s.base, key) in s.files && s.files[DataPath(s.base, key)] == data
  }

  /** When a store makes its bytes what later hits return, seen from the moment its disk half
      starts, whatever happened since its Redis half: exactly if no promotion of other bytes is
      under way, Redis has no other copy, and the disk gets the bytes. */
  lemma DiskHalfIsFreshIff(s: State, keys: set<Key>, w: Writer, key: Key, a: Artifact, data: Outcome, meta: Outcome)
    requires Separate(s.base, keys) && key in keys && w !in s.writers
    ensures StaysFresh(Exec(s, DiskScript(w, key, a, data, meta)), keys, key, a.data)
      <==> && NoStalePromotion(s, key, a.data)
           && (key in s.l1 ==> s.l1[key].data == a.data)
           && DiskHas(s, key, a.data, data)
  {
    DiskScriptWrites(s, w, key, a, data, meta);
    FreshIffSettled(Exec(s, DiskScript(w, key, a, data, meta)), keys, key, a.data);
  }

  /** The same for a whole store that nothing interrupts, over everything that can happen to it,
      including an artifact too large for Redis. */
  lemma StoreIsFreshIff(s: State, keys: set<Key>, w: Writer, key: Key, a: Artifact, l1Ok: bool, data: Outcome,
                        meta: Outcome)
    requires Separate(s.base, keys) && key in keys && w !in s.writers
    ensures StaysFresh(Exec(s, StoreScript(w, key, a, l1Ok, data, meta)), keys, key, a.data)
      <==> && NoStalePromotion(s, key, a.data)
           && ((|a.data| < L1_MAX_SIZE && l1Ok) || (key in s.l1 ==> s.l1[key].data == a.data))
           && DiskHas(s, key, a.data, data)
  {
    var first := if |a.data| < L1_MAX_SIZE then [SetL1(key, a, l1Ok)] else [];
    ExecConcat(s, first, DiskScript(w, key, a, data, meta));
    OneEvent(s, SetL1(key, a, l1Ok));
    DiskHalfIsFreshIff(Exec(s, first), keys, w, key, a, data, meta);
  }

  /** Two stores of one key whose halves cross leave Redis and the disk with different bytes, so
      neither artifact is what later hits return. */
  lemma CrossedStoresDisagree(s: State, keys: set<Key>, w: Writer, key: Key, a: Artifact, b: Artifact, meta: Outcome)
    requires Separate(s.base, keys) && key in keys && w !in s.writers
    requires a.data != b.data && |a.data| < L1_MAX_SIZE && |b.data| < L1_MAX_SIZE
    ensures var inRedis := Exec(s, [SetL1(key, a, true), SetL1(key, b, true)]);
            var after := Exec(Exec(inRedis, DiskScript(w, key, b, Whole, meta)), DiskScript(w, key, a, Whole, meta));
            !StaysFresh(after, keys, key, a.data) && !StaysFresh(after, keys, key, b.data)
  {
    TwoEvents(s, SetL1(key, a, true), SetL1(key, b, true));
    var inRedis := Exec(s, [SetL1(key, a, true), SetL1(key, b, true)]);
    var mid := Exec(inRedis, DiskScript(w, key, b, Whole, meta));
    DiskScriptWrites(inRedis, w, key, b, Whole, meta);
    DiskScriptWrites(mid, w, key, a, Whole, meta);
    var after := Exec(mid, DiskScript(w, key, a, Whole, meta));
    assert a.data[..|a.data|] == a.data;
    FreshIffSettled(after, keys, key, a.data);
    FreshIffSettled(after, keys, key, b.data);
  }

  /** A promotion under way can put its bytes in front of everything else. */
  lemma PromotionWins(s: State, keys: set<Key>, key: Key, p: Promotion)
    requires p in s.pending && s.pending[p].0 == key
    ensures Uses([Promote(p, true)], keys) && Leaves([Promote(p, true)], key)
    ensures Lookup(Exec(s, [Promote(p, true)]), key, true, true) == Some(s.pending[p].1)
  {
    OneEvent(s, Promote(p, true));
  }

  /** No tier and no promotion knows the key. */
  ghost predicate Unknown(s: State, key: Key) {
    key !in s.l1 && DataPath(s.base, key) !in s.files && forall p :: p in s.pending ==> s.pending[p].0 != key
  }

  lemma StepKeepsUnknown(s: State, keys: set<Key>, ev: Event, key: Key)
    requires Separate(s.base, keys) && key in keys && (KeyOf(ev).Some? ==> KeyOf(ev).value in keys)
    requires Unknown(s, key) && !Touches(ev, key)
    ensures Unknown(Next(s, ev), key) && Next(s, ev).base == s.base
  {
    UntouchedFile(s, keys, ev, key);
  }

  lemma {:induction false} RunKeepsUnknown(s: State, keys: set<Key>, evs: seq<Event>, key: Key)
    requires Separate(s.base, keys) && key in keys && Uses(evs, keys) && Leaves(evs, key) && Unknown(s, key)
    ensures Unknown(Exec(s, evs), key)
    decreases |evs|
  {
    if evs != [] {
      LeavesTail(evs, key);
      UsesTail(evs, keys);
      StepKeepsUnknown(s, keys, evs[0], key);
      RunKeepsUnknown(Next(s, evs[0]), keys, evs[1..], key);
    }
  }

  ghost predicate StaysGone(s: State, keys: set<Key>, key: Key) {
    forall evs, l1Up, diskUp :: Uses(evs, keys) && Leaves(evs, key) ==> Lookup(Exec(s, evs), key, l1Up, diskUp).None?
  }

  lemma GoneIffUnknown(s: State, keys: set<Key>, key: Key)
    requires Separate(s.base, keys) && key in keys
    ensures StaysGone(s, keys, key) <==> Unknown(s, key)
  {
    if Unknown(s, key) {
      forall evs, l1Up, diskUp | Uses(evs, keys) && Leaves(evs, key)
        ensures Lookup(Exec(s, evs), key, l1Up, diskUp).None?
      {
        RunKeepsUnknown(s, keys, evs, key);
      }
    } else if p :| p in s.pending && s.pending[p].0 == key {
      PromotionWins(s, keys, key, p);
      assert Lookup(Exec(s, [Promote(p, true)]), key, true, true).Some?;
    } else {
      assert Exec(s, []) == s && Uses([], keys) && Leaves([], key);
      assert Lookup(s, key, true, true).Some?;
    }
  }

  /** When an invalidated key stays gone until it is stored again, whichever removals failed:
      exactly if no promotion of it was under way and every tier that had it could drop it. */
  lemma GoneIffNoPromotion(s: State, keys: set<Key>, key: Key, l1Ok: bool, dataOk: bool, metaOk: bool)
    requires Separate(s.base, keys) && key in keys
    ensures StaysGone(Next(s, Invalidate(key, l1Ok, dataOk, metaOk)), keys, key)
      <==> && (forall p :: p in s.pending ==> s.pending[p].0 != key)
           && (l1Ok || key !in s.l1) && (dataOk || DataPath(s.base, key) !in s.files)
  {
    assert MetaPath(s.base, key) != DataPath(s.base, key);
    GoneIffUnknown(Next(s, Invalidate(key, l1Ok, dataOk, metaOk)), keys, key);
  }

  /** What leaves the tiers: by expiry the Redis copy; by invalidation that, the file and its
      metadata, each unless its removal fails; and nothing else. */
  lemma RemovalsExact(s: State, key: Key, l1Ok: bool, dataOk: bool, metaOk: bool, path: Path)
    ensures var expired, after := Next(s, ExpireL1(key)), Next(s, Invalidate(key, l1Ok, dataOk, metaOk));
            && expired.l1 == s.l1 - {key} && expired.files == s.files && expired.pending == s.pending
            && after.l1 == (if l1Ok then s.l1 - {key} else s.l1) && after.pending == s.pending
            && (path in after.files <==>
                  path in s.files
                  && !(dataOk && path == DataPath(s.base, key)) && !(metaOk && path == MetaPath(s.base, key)))
            && (path in after.files ==> after.files[path] == s.files[path])
  {
  }

  // ---------- What a hit carries ----------

  /** After a store that reached the disk with its metadata, a disk hit is the whole artifact: its
      bytes, and its content type unless that was empty. */
  lemma StoredTypeIsServed(s: State, w: Writer, key: Key, a: Artifact)
    requires w !in s.writers && MetaPath(s.base, key) != DataPath(s.base, key)
    ensures var after := Exec(s, DiskScript(w, key, a, Whole, Whole));
            Lookup(after, key, false, true)
            == Some(if a.contentType != [] then a else Artifact(a.data, OCTET_STREAM))
  {
    DiskScriptWrites(s, w, key, a, Whole, Whole);
  }

  /** If the metadata could not be written, the content type served is the one of the previous
      store, if any is left, and the generic one otherwise. */
  lemma OldTypeIsServed(s: State, w: Writer, key: Key, a: Artifact)
    requires w !in s.writers && MetaPath(s.base, key) != DataPath(s.base, key)
    ensures var after := Exec(s, DiskScript(w, key, a, Whole, Refused));
            var old' := if MetaPath(s.base, key) in s.files then s.files[MetaPath(s.base, key)] else [];
            Lookup(after, key, false, true) == Some(Artifact(a.data, if old' != [] then old' else OCTET_STREAM))
  {
    DiskScriptWrites(s, w, key, a, Whole, Refused);
  }

  /** A disk hit on an artifact below 10 MB starts its promotion, which puts exactly what was found
      into Redis; a larger one, and a hit in Redis, start none. */
  lemma DiskHitIsPromoted(s: State, key: Key, l1Up: bool, diskUp: bool, p: Promotion)
    requires p !in s.pending
    ensures var found := Lookup(s, key, l1Up, diskUp);
            var after := Next(s, Get(key, l1Up, diskUp, p));
            if found.Some? && !(l1Up && key in s.l1) && |found.value.data| < 10_485_760
            then after.pending == s.pending[p := (key, found.value)]
                 && Lookup(Next(after, Promote(p, true)), key, true, diskUp) == found
            else after.pending == s.pending
  {
  }

  // ---------- The manager ----------

  datatype Source = Redis | Disk

  class MultiTierCacheManager {
    const basePath: Path
    var redis: map<Key, Artifact>
    var files: map<Path, Bytes>
    /** Goroutines started by lookups that have not run yet. */
    var promotions: map<Promotion, (Key, Artifact)>
    /** Other calls' file writes that are under way. */
    ghost var writers: map<Writer, Writing>
    ghost var given: set<(Key, Bytes)>
    ghost var crossed: set<Key>
    ghost var partial: set<Key>

    ghost function Snapshot(): State
      reads this
    {
      State(basePath, redis, files, writers, promotions, given, crossed, partial)
    }

    constructor (basePath: Path)
      ensures Snapshot() == Empty(basePath)
    {
      this.basePath := basePath;
      redis, files, writers, promotions, given, crossed, partial := map[], map[], map[], map[], {}, {}, {};
    }

    /** Redis first, then the disk; a disk hit on a small artifact starts a promotion. */
    method GetArtifact(key: Key, l1Up: bool, diskUp: bool, p: Promotion) returns (r: Option<Artifact>, source: Source)
      requires p !in promotions
      modifies this`promotions, this`partial
      ensures Snapshot() == Next(old(Snapshot()), Get(key, l1Up, diskUp, p))
      ensures r == Lookup(old(Snapshot()), key, l1Up, diskUp)
      ensures r.Some? ==> (source == Redis <==> l1Up && key in redis)
    {
      source := Redis;
      if l1Up && key in redis { return Some(redis[key]), Redis; }
      r := ReadDisk(key, diskUp);
      if r.Some? && Midway(Snapshot(), key) { partial := partial + {key}; }
      if r.Some? && |r.value.data| < L1_MAX_SIZE {
        promotions := promotions[p := (key, r.value)];
      }
      source := Disk;
    }

    /** The disk tier's lookup; missing or empty metadata falls back to a generic type. */
    method ReadDisk(key: Key, diskUp: bool) returns (r: Option<Artifact>)
      ensures r == if diskUp then DiskGet(basePath, files, key) else None
    {
      var path := DataPath(basePath, key);
      if !diskUp || path !in files { return None; }
      var contentType := OCTET_STREAM;
      var metaPath := WithMeta(path);
      if metaPath in files && |files[metaPath]| > 0 {
        contentType := files[metaPath];
      }
      return Some(Artifact(files[path], contentType));
    }

    /** Small artifacts go to both tiers, others to the disk only. The call reports an error only
        for an artifact that had nowhere else to go. */
    method SetArtifact(ghost w: Writer, key: Key, a: Artifact, l1Ok: bool, data: Outcome, meta: Outcome)
      returns (ok: bool)
      requires w !in writers && MetaPath(basePath, key) != DataPath(basePath, key)
      modifies this`redis, this`files, this`given, this`crossed, this`partial
      ensures Snapshot() == Exec(old(Snapshot()), StoreScript(w, key, a, l1Ok, data, meta))
      ensures ok <==> |a.data| < L1_MAX_SIZE || data.Whole?
    {
      ghost var before := Snapshot();
      ghost var first := if |a.data| < L1_MAX_SIZE then [SetL1(key, a, l1Ok)] else [];
      OneEvent(before, SetL1(key, a, l1Ok));
      ExecConcat(before, first, DiskScript(w, key, a, data, meta));
      if |a.data| < L1_MAX_SIZE {
        given := given + {(key, a.data)};
        if l1Ok { redis := redis[key := a]; }
      }
      var written := WriteDisk(w, key, a, data, meta);
      return |a.data| < L1_MAX_SIZE || written;
    }

    /** The disk tier's store: data first; metadata only if that succeeded. */
    method WriteDisk(ghost w: Writer, key: Key, a: Artifact, data: Outcome, meta: Outcome) returns (ok: bool)
      requires w !in writers && MetaPath(basePath, key) != DataPath(basePath, key)
      modifies this`files, this`given, this`crossed, this`partial
      ensures Snapshot() == Exec(old(Snapshot()), DiskScript(w, key, a, data, meta))
      ensures ok <==> data.Whole?
    {
      DiskScriptWrites(Snapshot(), w, key, a, data, meta);
      ghost var after := Exec(Snapshot(), DiskScript(w, key, a, data, meta));
      given, crossed, partial := after.given, after.crossed, after.partial;
      files := Written(files, DataPath(basePath, key), a.data, data);
      if !data.Whole? { return false; }
      files := Written(files, MetaPath(basePath, key), a.contentType, meta);
      return true;
    }

    /** A promotion goroutine gets to run. */
    method PromoteToL1(p: Promotion, l1Ok: bool)
      requires p in promotions
      modifies this`redis, this`promotions
      ensures Snapshot() == Next(old(Snapshot()), Promote(p, l1Ok))
    {
      var (key, a) := promotions[p];
      promotions := promotions - {p};
      if l1Ok { redis := redis[key := a]; }
    }

    /** Best-effort removal from every tier; promotions and file writes under way are not stopped. */
    method InvalidateKey(key: Key, l1Ok: bool, dataOk: bool, metaOk: bool)
      modifies this`redis, this`files, this`writers
      ensures Snapshot() == Next(old(Snapshot()), Invalidate(key, l1Ok, dataOk, metaOk))
    {
      RemovedInTurn(Snapshot(), key, dataOk, metaOk);
      writers := Unlinked(Snapshot(), Removed(Snapshot(), key, dataOk, metaOk));
      if l1Ok { redis := redis - {key}; }
      var path := DataPath(basePath, key);
      if dataOk { files := files - {path}; }
      if metaOk { files := files - {WithMeta(path)}; }
    }
  }

  lemma RemovedInTurn(s: State, key: Key, dataOk: bool, metaOk: bool)
    ensures var one := if dataOk then s.files - {DataPath(s.base, key)} else s.files;
            s.files - Removed(s, key, dataOk, metaOk) == if metaOk then one - {MetaPath(s.base, key)} else one
  {
  }
}

/** Re-wrapping the data key of one artifact.

    The artifact's directory holds `meta.json` and, during an update, `meta.json.tmp`. The
    procedure is written as a machine whose steps are the points between which the process
    can die: reading, unwrapping, wrapping, writing the temporary file, renaming it. The
    class below runs the procedure and is tied to the machine step by step. */
module Rewrap {
  import opened Wrappers
  import opened Utf8
  import opened Kms
  import opened Envelope
  import TmkTable

  /** A decoded record. Its wrapped key came out of a JSON string. */
  datatype Meta = Meta(
    repositoryId: string,
    wrappedDek: Text,
    kekKeyId: KeyId,
    tmkVersion: int,
    algorithm: string,
    nonce: Bytes,
    lastRewrappedAt: int)

  /** A file as its reader sees it: missing, not a complete JSON record, or a record. */
  datatype File = Absent | Unparsable | Holds(record: Meta)

  datatype Dir = Dir(meta: File, temp: File)

  /** One re-wrap: the repository of the artifact, and the versions the job goes between. */
  datatype Task = Task(repositoryId: string, oldVersion: int, newVersion: int)

  /** What the procedure has in memory. A process that died has nothing: `Idle`. */
  datatype Local =
    | Idle
    | Loaded(task: Task, current: Meta)
    | Unwrapped(task: Task, current: Meta, dek: Bytes)
    | Wrapped(task: Task, current: Meta, sealed: Bytes, next: Meta)
    | Staged(task: Task, current: Meta, next: Meta)
    | RenameFailed(task: Task)
    | Done(task: Task, ok: bool)

  datatype State = State(dir: Dir, local: Local)

  /** The provider, and the tenant's stored master keys by version. */
  datatype Env = Env(kms: Provider, keys: map<int, TmkTable.Row>)

  datatype Event =
    | Load(task: Task, readable: bool)
    | Unwrap
    | Wrap(salt: nat, now: int)
    | Stage
    | StageTorn
    | Rename
    | RenameFails
    | RemoveTemp
    | RemoveTempFails
    | Fail
    | Crash
    | CrashWhileStaging

  /** A stored master key can be turned into a KEK: its row exists and the KMS opens it. */
  predicate KekDerivable(env: Env, version: int) {
    version in env.keys && env.kms.decrypt(env.keys[version].kmsKeyId, env.keys[version].encryptedKey).Some?
  }

  function Decimal(n: int): string
    decreases if n < 0 then 1 - n else n
  {
    if n < 0 then "-" + Decimal(-n)
    else if n < 10 then ["0123456789"[n]]
    else Decimal(n / 10) + ["0123456789"[n % 10]]
  }

  /** The number that decimal digits stand for. */
  function Numeral(s: string): nat {
    if s == [] then 0 else 10 * Numeral(s[..|s| - 1]) + DigitOf(s[|s| - 1])
  }

  function DigitOf(c: char): nat {
    if '0' <= c <= '9' then (c - '0') as nat else 0
  }

  lemma DecimalDigit(d: nat)
    requires d < 10
    ensures DigitOf("0123456789"[d]) == d && "0123456789"[d] != '-'
  {
    var s := "0123456789";
    assert s[0] == '0' && s[1] == '1' && s[2] == '2' && s[3] == '3' && s[4] == '4';
    assert s[5] == '5' && s[6] == '6' && s[7] == '7' && s[8] == '8' && s[9] == '9';
  }

  /** A printed version reads back. */
  lemma {:induction false} DecimalReadsBack(n: nat)
    ensures Decimal(n) != "" && Decimal(n)[0] != '-' && Numeral(Decimal(n)) == n
  {
    DecimalDigit(n % 10);
    if n < 10 {
      var s := Decimal(n);
      assert s == [] + [s[0]] && s[..0] == [];
      assert Numeral(s) == 10 * Numeral([]) + DigitOf(s[0]);
    } else {
      DecimalReadsBack(n / 10);
      var s := Decimal(n);
      assert s[..|s| - 1] == Decimal(n / 10) && s[0] == Decimal(n / 10)[0];
    }
  }

  /** So different versions print differently. */
  lemma DecimalInjective(m: int, n: int)
    ensures Decimal(m) == Decimal(n) ==> m == n
  {
    DecimalReadsBack(if m < 0 then -m else m);
    DecimalReadsBack(if n < 0 then -n else n);
    if m < 0 && n < 0 {
      assert Decimal(m)[1..] == Decimal(-m) && Decimal(n)[1..] == Decimal(-n);
    }
  }

  /** The old and the new key of a repository have different ids. */
  lemma KekNamesDiffer(repositoryId: string, m: int, n: int)
    ensures KekName(repositoryId, m) == KekName(repositoryId, n) ==> m == n
  {
    var prefix := "kek-" + repositoryId + "-v";
    assert (prefix + Decimal(m))[|prefix|..] == Decimal(m) && (prefix + Decimal(n))[|prefix|..] == Decimal(n);
    DecimalInjective(m, n);
  }

  function KekName(repositoryId: string, version: int): KeyId {
    "kek-" + repositoryId + "-v" + Decimal(version)
  }

  /** The record that will replace `current`. The ciphertext is stored in a JSON string. */
  function Rewrapped(task: Task, current: Meta, sealed: Bytes, now: int): Meta {
    ThroughJsonIsText(sealed);
    current.(wrappedDek := ThroughJson(sealed),
             kekKeyId := KekName(task.repositoryId, task.newVersion),
             tmkVersion := task.newVersion,
             lastRewrappedAt := now)
  }

  /** One step; an event that does not apply changes nothing. */
  function Next(env: Env, s: State, ev: Event): State {
    match (ev, s.local)
    case (Load(task, readable), _) =>
      if !s.local.Idle? && !s.local.Done? then s
      else if !readable || !s.dir.meta.Holds? then s.(local := Done(task, false))
      else if s.dir.meta.record.tmkVersion >= task.newVersion then s.(local := Done(task, true))
      else s.(local := Loaded(task, s.dir.meta.record))
    case (Unwrap, Loaded(task, current)) =>
      var dek := env.kms.decrypt(current.kekKeyId, current.wrappedDek);
      if !KekDerivable(env, task.oldVersion) || dek.None? then s.(local := Done(task, false))
      else s.(local := Unwrapped(task, current, dek.value))
    case (Wrap(salt, now), Unwrapped(task, current, dek)) =>
      var sealed := env.kms.encrypt(KekName(task.repositoryId, task.newVersion), salt, dek);
      s.(local := Wrapped(task, current, sealed, Rewrapped(task, current, sealed, now)))
    case (Stage, Wrapped(task, current, _, next)) =>
      State(s.dir.(temp := Holds(next)), Staged(task, current, next))
    case (StageTorn, Wrapped(task, _, _, _)) =>
      State(s.dir.(temp := Unparsable), Done(task, false))
    case (Rename, Staged(task, _, _)) =>
      State(Dir(s.dir.temp, Absent), Done(task, true))
    case (RenameFails, Staged(task, _, _)) =>
      s.(local := RenameFailed(task))
    case (RemoveTemp, RenameFailed(task)) =>
      State(s.dir.(temp := Absent), Done(task, false))
    case (RemoveTempFails, RenameFailed(task)) =>
      s.(local := Done(task, false))
    case (Fail, _) =>
      if s.local.Loaded? || s.local.Unwrapped? || s.local.Wrapped? then s.(local := Done(s.local.task, false)) else s
    case (Crash, _) => s.(local := Idle)
    case (CrashWhileStaging, Wrapped(_, _, _, _)) => State(s.dir.(temp := Unparsable), Idle)
    case _ => s
  }

  function Exec(env: Env, s: State, evs: seq<Event>): State
    decreases |evs|
  {
    if evs == [] then s else Exec(env, Next(env, s, evs[0]), evs[1..])
  }

  lemma {:induction false} ExecAppend(env: Env, s: State, evs: seq<Event>, ev: Event)
    ensures Exec(env, s, evs + [ev]) == Next(env, Exec(env, s, evs), ev)
    decreases |evs|
  {
    if evs == [] {
      assert evs + [ev] == [ev];
    } else {
      assert (evs + [ev])[1..] == evs[1..] + [ev];
      ExecAppend(env, Next(env, s, evs[0]), evs[1..], ev);
    }
  }

  // ---------- What every step keeps ----------

  /** Memory and disk agree: the record in hand is the one on disk, and what is about to be
      renamed is the whole record that was prepared. */
  ghost predicate Consistent(s: State) {
    match s.local
    case Loaded(task, current) => s.dir.meta == Holds(current) && current.tmkVersion < task.newVersion
    case Unwrapped(task, current, _) => s.dir.meta == Holds(current) && current.tmkVersion < task.newVersion
    case Wrapped(task, current, _, next) =>
      s.dir.meta == Holds(current) && current.tmkVersion < task.newVersion && next.tmkVersion == task.newVersion
    case Staged(task, current, next) =>
      && s.dir.meta == Holds(current) && s.dir.temp == Holds(next)
      && current.tmkVersion < task.newVersion && next.tmkVersion == task.newVersion
    case Done(task, ok) => ok ==> s.dir.meta.Holds? && s.dir.meta.record.tmkVersion >= task.newVersion
    case _ => true
  }

  /** The file at `meta.json` is never partly written: a step leaves it as it is or replaces it
      by the complete prepared record, whose version is strictly higher. */
  lemma MetaStaysWhole(env: Env, s: State, ev: Event)
    requires Consistent(s)
    ensures Consistent(Next(env, s, ev))
    ensures Next(env, s, ev).dir.meta != s.dir.meta ==>
      && ev.Rename? && s.local.Staged?
      && s.dir.meta == Holds(s.local.current) && Next(env, s, ev).dir.meta == Holds(s.local.next)
      && s.local.next.tmkVersion == s.local.task.newVersion > s.local.current.tmkVersion
  {
  }

  /** The version of a file that holds a record. */
  function Version(f: File): int
    requires f.Holds?
  {
    f.record.tmkVersion
  }

  /** Over any run with any failures and crashes, the record stays and its version never falls. */
  lemma {:induction false} VersionNeverFalls(env: Env, s: State, evs: seq<Event>)
    requires Consistent(s) && s.dir.meta.Holds?
    ensures var after := Exec(env, s, evs);
            Consistent(after) && after.dir.meta.Holds? && Version(after.dir.meta) >= Version(s.dir.meta)
    decreases |evs|
  {
    if evs != [] {
      MetaStaysWhole(env, s, evs[0]);
      VersionNeverFalls(env, Next(env, s, evs[0]), evs[1..]);
    }
  }

  // ---------- The data key survives ----------

  /** The record unwraps, under the key id it names, to this data key. */
  ghost predicate Unwraps(kms: Provider, record: Meta, dek: Bytes) {
    kms.decrypt(record.kekKeyId, record.wrappedDek) == Some(dek)
  }

  /** Every record on its way to disk, and the one there, unwraps to the original data key. */
  ghost predicate KeepsDek(kms: Provider, s: State, dek: Bytes) {
    && Consistent(s)
    && s.dir.meta.Holds? && Unwraps(kms, s.dir.meta.record, dek)
    && (s.local.Unwrapped? ==> s.local.dek == dek)
    && (s.local.Wrapped? ==> Unwraps(kms, s.local.next, dek))
    && (s.local.Staged? ==> Unwraps(kms, s.local.next, dek))
  }

  /** The ciphertexts drawn along the run are valid UTF-8, so JSON stores them unchanged. */
  ghost predicate DrawsText(env: Env, s: State, evs: seq<Event>)
    decreases |evs|
  {
    && (s.local.Wrapped? ==> IsText(s.local.sealed))
    && (evs != [] ==> DrawsText(env, Next(env, s, evs[0]), evs[1..]))
  }

  lemma StepKeepsDek(env: Env, s: State, ev: Event, dek: Bytes)
    requires Lawful(env.kms) && KeepsDek(env.kms, s, dek)
    requires Next(env, s, ev).local.Wrapped? ==> IsText(Next(env, s, ev).local.sealed)
    ensures KeepsDek(env.kms, Next(env, s, ev), dek)
  {
    MetaStaysWhole(env, s, ev);
    if ev.Wrap? && s.local.Unwrapped? {
      ThroughJsonExact(Next(env, s, ev).local.sealed);
    }
  }

  /** Crash safety: whatever sequence of attempts, failures and crashes happens, and wherever it
      stops, the record on disk still unwraps to the original data key. */
  lemma {:induction false} CrashSafe(env: Env, s: State, evs: seq<Event>, dek: Bytes)
    requires Lawful(env.kms) && KeepsDek(env.kms, s, dek) && DrawsText(env, s, evs)
    ensures KeepsDek(env.kms, Exec(env, s, evs), dek)
    decreases |evs|
  {
    if evs != [] {
      StepKeepsDek(env, s, evs[0], dek);
      CrashSafe(env, Next(env, s, evs[0]), evs[1..], dek);
    }
  }

  // ---------- The rest of the record ----------

  /** Records of one artifact: what a re-wrap has no business changing is the same. */
  ghost predicate SameArtifact(a: Meta, b: Meta) {
    a.repositoryId == b.repositoryId && a.algorithm == b.algorithm && a.nonce == b.nonce
  }

  /** The record on disk, and any on its way there, are of the artifact that `first` describes. */
  ghost predicate Describes(s: State, first: Meta) {
    && Consistent(s) && s.dir.meta.Holds? && SameArtifact(s.dir.meta.record, first)
    && (s.local.Wrapped? ==> SameArtifact(s.local.next, first))
    && (s.local.Staged? ==> SameArtifact(s.local.next, first))
  }

  lemma StepStillDescribes(env: Env, s: State, ev: Event, first: Meta)
    requires Describes(s, first)
    ensures Describes(Next(env, s, ev), first)
  {
    MetaStaysWhole(env, s, ev);
  }

  /** Over any run with any failures and crashes the record keeps repository, algorithm and nonce. */
  lemma {:induction false} RecordKeepsArtifact(env: Env, s: State, evs: seq<Event>, first: Meta)
    requires Describes(s, first)
    ensures Describes(Exec(env, s, evs), first)
    decreases |evs|
  {
    if evs != [] {
      StepStillDescribes(env, s, evs[0], first);
      RecordKeepsArtifact(env, Next(env, s, evs[0]), evs[1..], first);
    }
  }

  /** So the artifact itself can still be read, with nothing but what its record says now: sealed
      with the nonce of the first record, it opens with the key, key id and nonce of the last. */
  lemma ArtifactStillOpens(env: Env, aead: Aead, s: State, evs: seq<Event>, first: Meta, dek: Bytes,
                           data: EncryptedData, plaintext: Bytes)
    requires Lawful(env.kms) && Authentic(aead) && KeepsDek(env.kms, s, dek) && DrawsText(env, s, evs)
    requires Describes(s, first)
    requires |dek| == DEK_SIZE && data.tenantId != ""
    requires data.ciphertext == aead.seal(dek, first.nonce, plaintext, data.tenantId)
    ensures var after := Exec(env, s, evs).dir.meta;
            && after.Holds?
            && var now := data.(encryptedDek := after.record.wrappedDek, nonce := after.record.nonce);
               DecryptArtifact(env.kms, aead, now, after.record.kekKeyId, true) == Ok(plaintext)
  {
    CrashSafe(env, s, evs, dek);
    RecordKeepsArtifact(env, s, evs, first);
    var record := Exec(env, s, evs).dir.meta.record;
    OpensWithItsKey(env.kms, aead, data.(encryptedDek := record.wrappedDek, nonce := record.nonce), dek, plaintext,
      record.kekKeyId);
  }

  /** A failure-free attempt. */
  function Attempt(task: Task, salt: nat, now: int): seq<Event> {
    [Load(task, true), Unwrap, Wrap(salt, now), Stage, Rename]
  }

  /** The ciphertext an attempt stores. */
  function Sealed(env: Env, task: Task, dek: Bytes, salt: nat): Bytes {
    env.kms.encrypt(KekName(task.repositoryId, task.newVersion), salt, dek)
  }

  /** Re-running from wherever a run was cut off, even just before a crash, reaches the new
      version, provided the old master key can still be derived. */
  lemma RetryReachesNewVersion(env: Env, s: State, task: Task, salt: nat, now: int, dek: Bytes)
    requires KeepsDek(env.kms, s, dek)
    ensures var after := Exec(env, s, [Crash] + Attempt(task, salt, now));
            && after.dir.meta.Holds?
            && (after.local == Done(task, true)
                <==> Version(s.dir.meta) >= task.newVersion || KekDerivable(env, task.oldVersion))
            && (after.local == Done(task, true) ==>
                  Version(after.dir.meta) >= task.newVersion
                  && (after.dir.temp == s.dir.temp || after.dir.temp == Absent))
            && (after.local != Done(task, true) || Version(s.dir.meta) >= task.newVersion ==> after.dir == s.dir)
            && (Version(s.dir.meta) < task.newVersion && KekDerivable(env, task.oldVersion) ==>
                 after.dir.meta == Holds(Rewrapped(task, s.dir.meta.record, Sealed(env, task, dek, salt), now)))
            && (Version(s.dir.meta) < task.newVersion && KekDerivable(env, task.oldVersion) ==>
                 && after.dir.meta.record.tmkVersion == task.newVersion && after.dir.meta.record.lastRewrappedAt == now
                 && after.dir.meta.record.kekKeyId == "kek-" + task.repositoryId + "-v" + Decimal(task.newVersion)
                 && SameArtifact(after.dir.meta.record, s.dir.meta.record))
  {
    var evs := [Crash] + Attempt(task, salt, now);
    var s1 := Next(env, s, evs[0]);
    var s2 := Next(env, s1, evs[1]);
    var s3 := Next(env, s2, evs[2]);
    var s4 := Next(env, s3, evs[3]);
    var s5 := Next(env, s4, evs[4]);
    var s6 := Next(env, s5, evs[5]);
    ExecSix(env, s, evs);
  }

  lemma ExecSix(env: Env, s: State, evs: seq<Event>)
    requires |evs| == 6
    ensures Exec(env, s, evs)
      == Next(env, Next(env, Next(env, Next(env, Next(env, Next(env, s, evs[0]), evs[1]), evs[2]), evs[3]), evs[4]),
        evs[5])
  {
    ExecAppend(env, s, [], evs[0]);
    ExecAppend(env, s, [evs[0]], evs[1]);
    ExecAppend(env, s, [evs[0], evs[1]], evs[2]);
    ExecAppend(env, s, [evs[0], evs[1], evs[2]], evs[3]);
    ExecAppend(env, s, [evs[0], evs[1], evs[2], evs[3]], evs[4]);
    ExecAppend(env, s, [evs[0], evs[1], evs[2], evs[3], evs[4]], evs[5]);
    assert [] + [evs[0]] == [evs[0]];
    assert [evs[0]] + [evs[1]] == [evs[0], evs[1]];
    assert [evs[0], evs[1]] + [evs[2]] == [evs[0], evs[1], evs[2]];
    assert [evs[0], evs[1], evs[2]] + [evs[3]] == [evs[0], evs[1], evs[2], evs[3]];
    assert [evs[0], evs[1], evs[2], evs[3]] + [evs[4]] == [evs[0], evs[1], evs[2], evs[3], evs[4]];
    assert [evs[0], evs[1], evs[2], evs[3], evs[4]] + [evs[5]] == evs;
  }

  // ---------- Exactly when it survives ----------

  /** The mock re-wraps a record to the ciphertext it already has, whatever the key ids, so that
      ciphertext is text again. What the procedure has in memory reflects this. */
  ghost predicate MockInHand(master: Bytes, local: Local)
    requires |master| > 0
  {
    && (local.Unwrapped? ==> local.dek == Xored(master, local.current.wrappedDek))
    && (local.Wrapped? ==> local.sealed == local.current.wrappedDek)
  }

  lemma MockStepKeepsInHand(master: Bytes, keys: map<int, TmkTable.Row>, s: State, ev: Event)
    requires |master| > 0 && MockInHand(master, s.local)
    ensures MockInHand(master, Next(Env(MockProvider(master), keys), s, ev).local)
  {
    if ev.Wrap? && s.local.Unwrapped? {
      XoredTwice(master, s.local.current.wrappedDek);
    }
  }

  /** With the mock client every ciphertext along every run is text: the condition of crash
      safety holds by itself, for every master key. */
  lemma {:induction false} MockDrawsText(master: Bytes, keys: map<int, TmkTable.Row>, s: State, evs: seq<Event>)
    requires |master| > 0 && MockInHand(master, s.local)
    ensures DrawsText(Env(MockProvider(master), keys), s, evs)
    decreases |evs|
  {
    if evs != [] {
      MockStepKeepsInHand(master, keys, s, evs[0]);
      MockDrawsText(master, keys, Next(Env(MockProvider(master), keys), s, evs[0]), evs[1..]);
    }
  }

  /** So with the mock client no run, whatever fails and wherever it stops, loses a data key. */
  lemma MockNeverLosesDek(master: Bytes, keys: map<int, TmkTable.Row>, dir: Dir, evs: seq<Event>, dek: Bytes)
    requires |master| > 0 && KeepsDek(MockProvider(master), State(dir, Idle), dek)
    ensures KeepsDek(MockProvider(master), Exec(Env(MockProvider(master), keys), State(dir, Idle), evs), dek)
  {
    MockIsLawful(master);
    MockDrawsText(master, keys, State(dir, Idle), evs);
    CrashSafe(Env(MockProvider(master), keys), State(dir, Idle), evs, dek);
  }

  /** For every other lawful provider: the re-wrapped record keeps the data key if and only if
      the ciphertext drawn is valid UTF-8. */
  lemma KeepsDekIffText(env: Env, task: Task, current: Meta, dek: Bytes, salt: nat, now: int)
    requires Lawful(env.kms) && LengthRegular(env.kms)
    ensures Unwraps(env.kms, Rewrapped(task, current, Sealed(env, task, dek, salt), now), dek)
      <==> IsText(Sealed(env, task, dek, salt))
  {
    var sealed := Sealed(env, task, dek, salt);
    ThroughJsonExact(sealed);
    ThroughJsonGrows(sealed);
    assert env.kms.decrypt(KekName(task.repositoryId, task.newVersion), sealed) == Some(dek);
  }

  /** And so for a whole attempt, from wherever an earlier one was cut off: a failure-free retry
      loses the data key exactly if it re-wraps and the ciphertext it draws is not valid UTF-8. */
  lemma RetryKeepsDekIff(env: Env, s: State, task: Task, salt: nat, now: int, dek: Bytes)
    requires Lawful(env.kms) && LengthRegular(env.kms) && KeepsDek(env.kms, s, dek)
    ensures var after := Exec(env, s, [Crash] + Attempt(task, salt, now));
            && after.dir.meta.Holds?
            && (Unwraps(env.kms, after.dir.meta.record, dek)
                <==> Version(s.dir.meta) >= task.newVersion || !KekDerivable(env, task.oldVersion)
                     || IsText(Sealed(env, task, dek, salt)))
  {
    RetryReachesNewVersion(env, s, task, salt, now, dek);
    KeepsDekIffText(env, task, s.dir.meta.record, dek, salt, now);
  }

  /** Key id `id` has the key 0xFF, every other key id the key 0. */
  function OneKeyFlipped(id: KeyId): Provider {
    KeyedProvider(k => if k == id then 0xFF else 0)
  }

  function ZeroRecord(repositoryId: string, nonce: Bytes): Meta {
    Meta(repositoryId, Zeros(DEK_SIZE), "", 0, "AES-256-GCM", nonce, 0)
  }

  lemma FlippedCiphertextIsNoText(id: KeyId, salt: nat, dek: Bytes)
    requires dek != [] && dek[0] == 0
    ensures !IsText(OneKeyFlipped(id).encrypt(id, salt, dek))
  {
    var sealed := Xored([0xFF], dek);
    assert OneKeyFlipped(id).encrypt(id, salt, dek) == sealed;
    assert sealed[0] == dek[0] ^ 0xFF;
    assert RuneLength(sealed) == 0;
  }

  lemma ZerosUnwrap(id: KeyId, record: Meta)
    requires id != "" && record.kekKeyId == "" && forall i :: 0 <= i < |record.wrappedDek| ==> record.wrappedDek[i] == 0
    ensures Unwraps(OneKeyFlipped(id), record, record.wrappedDek)
  {
    assert Xored([0], record.wrappedDek) == record.wrappedDek;
  }

  /** The loss is real: with a key of its own for the new key id, a record that is text and does
      unwrap is replaced, by an attempt that reports success, by one that does not. */
  lemma SuccessfulRewrapLosesDek(keys: map<int, TmkTable.Row>, task: Task, nonce: Bytes, salt: nat, now: int)
    requires task.oldVersion in keys && task.newVersion > 0
    ensures var env := Env(OneKeyFlipped(KekName(task.repositoryId, task.newVersion)), keys);
            var record := ZeroRecord(task.repositoryId, nonce);
            var after := Exec(env, State(Dir(Holds(record), Absent), Idle), [Crash] + Attempt(task, salt, now));
            && Lawful(env.kms) && Unwraps(env.kms, record, Zeros(DEK_SIZE))
            && after.local == Done(task, true) && after.dir.meta.Holds?
            && !Unwraps(env.kms, after.dir.meta.record, Zeros(DEK_SIZE))
  {
    var newId := KekName(task.repositoryId, task.newVersion);
    var env := Env(OneKeyFlipped(newId), keys);
    KeyedIsLawful(k => if k == newId then 0xFF else 0);
    FlippedCiphertextIsNoText(newId, salt, Zeros(DEK_SIZE));
    ZerosUnwrap(newId, ZeroRecord(task.repositoryId, nonce));
    var s := State(Dir(Holds(ZeroRecord(task.repositoryId, nonce)), Absent), Idle);
    assert KekDerivable(env, task.oldVersion);
    RetryReachesNewVersion(env, s, task, salt, now, Zeros(DEK_SIZE));
    RetryKeepsDekIff(env, s, task, salt, now, Zeros(DEK_SIZE));
  }

  function Zeros(n: nat): (r: Text)
    ensures |r| == n && forall i :: 0 <= i < n ==> r[i] == 0
  {
    if n == 0 then []
    else
      var r: Bytes := [0] + Zeros(n - 1);
      assert RuneLength(r) == 1 && r[1..] == Zeros(n - 1);
      r
  }

  // ---------- The procedure ----------

  /** Where one call of the procedure is made to fail, and what it draws. */
  datatype Stop = Nowhere | AtRead | AtDerive | AtUnwrap | AtWrap | AtMarshal | AtWriteTemp | AtRename

  datatype Plan = Plan(stop: Stop, salt: nat, now: int)

  function DirOf(dirs: map<nat, Dir>, id: nat): Dir {
    if id in dirs then dirs[id] else Dir(Absent, Absent)
  }

  /** `dirs` with the directory of one artifact replaced. */
  function Put(dirs: map<nat, Dir>, id: nat, dir: Dir): (r: map<nat, Dir>)
    ensures DirOf(r, id) == dir && forall other :: other != id ==> DirOf(r, other) == DirOf(dirs, other)
  {
    if DirOf(dirs, id) == dir then dirs else dirs[id := dir]
  }

  class ArtifactStore {
    var dirs: map<nat, Dir>

    constructor (dirs: map<nat, Dir>)
      ensures this.dirs == dirs
    {
      this.dirs := dirs;
    }

    /** Re-wraps one artifact. `script` is the run of the machine this call performs, so
        every prefix of it followed by a crash is covered by the lemmas above. */
    method RewrapArtifact(env: Env, id: nat, task: Task, plan: Plan) returns (ok: bool, ghost script: seq<Event>)
      modifies this
      ensures dirs == Put(old(dirs), id, DirOf(dirs, id))
      ensures Exec(env, State(DirOf(old(dirs), id), Idle), script) == State(DirOf(dirs, id), Done(task, ok))
      ensures ok ==> DirOf(dirs, id).meta.Holds? && Version(DirOf(dirs, id).meta) >= task.newVersion
      ensures !ok ==> DirOf(dirs, id).meta == DirOf(old(dirs), id).meta
      ensures DirOf(old(dirs), id).meta.Holds? ==>
        DirOf(dirs, id).meta.Holds? && SameArtifact(DirOf(dirs, id).meta.record, DirOf(old(dirs), id).meta.record)
      ensures plan.stop.Nowhere? && DirOf(old(dirs), id).meta.Holds? ==>
        (ok <==> Version(DirOf(old(dirs), id).meta) >= task.newVersion
                 || (KekDerivable(env, task.oldVersion)
                     && env.kms.decrypt(DirOf(old(dirs), id).meta.record.kekKeyId,
                       DirOf(old(dirs), id).meta.record.wrappedDek).Some?))
    {
      ghost var start := State(DirOf(dirs, id), Idle);
      var next, ready;
      ready, ok, next, script := Prepare(env, id, task, plan);
      if ready {
        ghost var more;
        ok, more := Publish(env, id, task, plan, next, Exec(env, start, script).local);
        ExecConcat(env, start, script, more);
        script := script + more;
      }
      if start.dir.meta.Holds? {
        RecordKeepsArtifact(env, start, script, start.dir.meta.record);
      }
    }

    /** Reads the record and prepares its successor; nothing is written. Either the call is
        decided (`ok`), or the successor is ready. */
    method Prepare(env: Env, id: nat, task: Task, plan: Plan)
      returns (ready: bool, ok: bool, next: Meta, ghost script: seq<Event>)
      ensures var after := Exec(env, State(DirOf(dirs, id), Idle), script);
              && after.dir == DirOf(dirs, id)
              && (!ready ==> after.local == Done(task, ok))
              && (ready ==> after.local.Wrapped? && after.local.task == task && after.local.next == next
                            && DirOf(dirs, id).meta.Holds? && next.tmkVersion == task.newVersion
                            && SameArtifact(next, DirOf(dirs, id).meta.record))
      ensures !ready && ok ==> DirOf(dirs, id).meta.Holds? && Version(DirOf(dirs, id).meta) >= task.newVersion
      ensures plan.stop.Nowhere? && DirOf(dirs, id).meta.Holds? ==>
        (ready || ok <==> Version(DirOf(dirs, id).meta) >= task.newVersion
                          || (KekDerivable(env, task.oldVersion)
                              && env.kms.decrypt(DirOf(dirs, id).meta.record.kekKeyId,
                                DirOf(dirs, id).meta.record.wrappedDek).Some?))
    {
      ghost var start := State(DirOf(dirs, id), Idle);
      var file := DirOf(dirs, id).meta;
      ready, ok, next := false, false, Meta("", [], "", 0, "", [], 0);
      OneEvent(env, start, Load(task, plan.stop != AtRead));
      script := [Load(task, plan.stop != AtRead)];
      if plan.stop == AtRead || !file.Holds? { return; }
      var meta := file.record;
      if meta.tmkVersion >= task.newVersion { ok := true; return; }

      ExecAppend(env, start, script, Fail);
      ExecAppend(env, start, script, Unwrap);
      if plan.stop == AtDerive || plan.stop == AtUnwrap { script := script + [Fail]; return; }
      script := script + [Unwrap];
      if !KekDerivable(env, task.oldVersion) { return; }
      var dek := env.kms.decrypt(meta.kekKeyId, meta.wrappedDek);
      if dek.None? { return; }

      ExecAppend(env, start, script, Fail);
      ExecAppend(env, start, script, Wrap(plan.salt, plan.now));
      if plan.stop == AtWrap { script := script + [Fail]; return; }
      var newKekId := KekName(task.repositoryId, task.newVersion);
      var sealed := env.kms.encrypt(newKekId, plan.salt, dek.value);
      script := script + [Wrap(plan.salt, plan.now)];
      ThroughJsonIsText(sealed);
      next := meta.(wrappedDek := ThroughJson(sealed), kekKeyId := newKekId,
                    tmkVersion := task.newVersion, lastRewrappedAt := plan.now);
      ready := true;
    }

    /** Writes the temporary file and renames it over the record. */
    method Publish(env: Env, id: nat, task: Task, plan: Plan, next: Meta, ghost local: Local)
      returns (ok: bool, ghost script: seq<Event>)
      requires local.Wrapped? && local.task == task && local.next == next && DirOf(dirs, id).meta.Holds?
      modifies this
      ensures dirs == Put(old(dirs), id, DirOf(dirs, id))
      ensures Exec(env, State(DirOf(old(dirs), id), local), script) == State(DirOf(dirs, id), Done(task, ok))
      ensures ok ==> DirOf(dirs, id) == Dir(Holds(next), Absent)
      ensures plan.stop == AtRename ==> DirOf(dirs, id).temp == Absent
      ensures plan.stop == AtWriteTemp ==> DirOf(dirs, id).temp == Unparsable
      ensures !ok ==> DirOf(dirs, id).meta == DirOf(old(dirs), id).meta
      ensures plan.stop.Nowhere? ==> ok
    {
      ghost var start := State(DirOf(dirs, id), local);
      script := [];
      if plan.stop == AtMarshal {
        OneEvent(env, start, Fail);
        return false, [Fail];
      }
      if plan.stop == AtWriteTemp {
        OneEvent(env, start, StageTorn);
        dirs := Put(dirs, id, DirOf(dirs, id).(temp := Unparsable));
        return false, [StageTorn];
      }
      OneEvent(env, start, Stage);
      dirs := Put(dirs, id, DirOf(dirs, id).(temp := Holds(next)));

      if plan.stop == AtRename {
        ExecAppend(env, start, [Stage], RenameFails);
        ExecAppend(env, start, [Stage] + [RenameFails], RemoveTemp);
        dirs := Put(dirs, id, DirOf(dirs, id).(temp := Absent));
        return false, [Stage] + [RenameFails] + [RemoveTemp];
      }
      ExecAppend(env, start, [Stage], Rename);
      dirs := Put(dirs, id, Dir(DirOf(dirs, id).temp, Absent));
      return true, [Stage] + [Rename];
    }
  }

  lemma OneEvent(env: Env, s: State, ev: Event)
    ensures Exec(env, s, [ev]) == Next(env, s, ev)
  {
    ExecAppend(env, s, [], ev);
    assert [] + [ev] == [ev];
  }

  lemma {:induction false} ExecConcat(env: Env, s: State, a: seq<Event>, b: seq<Event>)
    ensures Exec(env, s, a + b) == Exec(env, Exec(env, s, a), b)
    decreases |a|
  {
    if a == [] {
      assert [] + b == b;
    } else {
      assert (a + b)[1..] == a[1..] + b;
      ExecConcat(env, Next(env, s, a[0]), a[1..], b);
    }
  }
}

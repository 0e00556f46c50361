/** The job that re-wraps every encrypted artifact of a tenant: keyset pagination over the
    artifact table, counters, and a final status. */
module RewrapJobs {
  import opened Wrappers
  import opened Utf8
  import opened Kms
  import opened Rewrap
  import opened TmkServices
  import TmkTable

  /** The tenant's encrypted artifacts: primary key to repository. */
  type ArtifactTable = map<nat, string>

  /** `order` lists exactly `ids`, each once, in ascending order. */
  ghost predicate Lists(order: seq<nat>, ids: set<nat>) {
    if order == [] then ids == {}
    else
      && order[0] in ids
      && (forall id :: id in ids ==> order[0] <= id)
      && Lists(order[1..], ids - {order[0]})
  }

  lemma {:induction false} ListsSnoc(order: seq<nat>, ids: set<nat>, id: nat)
    requires Lists(order, ids) && forall other :: other in ids ==> other < id
    ensures Lists(order + [id], ids + {id})
  {
    if order == [] {
      assert [] + [id] == [id];
    } else {
      ListsSnoc(order[1..], ids - {order[0]}, id);
      assert (order + [id])[1..] == order[1..] + [id];
      assert ids + {id} - {order[0]} == ids - {order[0]} + {id};
    }
  }

  /** Reading a listing from the front. */
  lemma ListsStep(order: seq<nat>, i: nat, todo: set<nat>)
    requires i < |order| && Lists(order[i..], todo)
    ensures order[i] in todo && forall id :: id in todo - {order[i]} ==> order[i] < id
    ensures Lists(order[i + 1..], todo - {order[i]})
  {
    assert order[i..][1..] == order[i + 1..];
  }

  /** What `Lists` means position by position. */
  lemma {:induction false} ListsAscending(order: seq<nat>, ids: set<nat>)
    requires Lists(order, ids)
    ensures |order| == |ids|
    ensures forall i, j :: 0 <= i < j < |order| ==> order[i] < order[j]
    ensures forall id :: id in order <==> id in ids
  {
    if order != [] {
      var head, tail := order[0], order[1..];
      ListsAscending(tail, ids - {head});
      assert order == [head] + tail;
      forall j | 0 < j < |order| ensures head < order[j] {
        assert order[j] == tail[j - 1];
        assert order[j] in tail;
      }
    }
  }

  datatype Status = Running | Completed | Failed | Cancelled

  datatype JobError = TmkUnavailable | QueryFailed(batch: nat) | ArtifactFailed(id: nat)

  /** What goes wrong during the job: the key lookup, the query of a batch, the scan of a row of
      a batch, the re-wrap of an artifact; and in which batches someone asks to cancel. */
  datatype Faults = Faults(
    keyQueryFails: bool,
    keyKmsFails: bool,
    queryFails: nat -> bool,
    scanFails: (nat, nat) -> bool,
    plan: nat -> Plan,
    cancelIn: nat -> bool)

  /** No query and no scan fails. */
  ghost predicate Undisturbed(faults: Faults) {
    && (forall b :: !faults.queryFails(b))
    && (forall b, id :: !faults.scanFails(b, id))
  }

  /** Whether an artifact's record is at the new version. */
  ghost predicate AtVersion(dirs: map<nat, Dir>, id: nat, version: int) {
    DirOf(dirs, id).meta.Holds? && Version(DirOf(dirs, id).meta) >= version
  }

  /** Every artifact in `deks` still has a record that unwraps to its data key. */
  ghost predicate Readable(kms: Provider, dirs: map<nat, Dir>, deks: map<nat, Bytes>) {
    forall id :: id in deks ==> DirOf(dirs, id).meta.Holds? && Unwraps(kms, DirOf(dirs, id).meta.record, deks[id])
  }

  /** One attempt: the run it performed on its artifact's directory, and whether it reported
      success. */
  datatype Entry = Entry(task: Task, script: seq<Event>, ok: bool)

  /** The attempt really is a run of the re-wrap procedure from what the directory held at the
      start of the job to what it holds now. */
  ghost predicate Performed(env: Env, start: map<nat, Dir>, dirs: map<nat, Dir>, id: nat, e: Entry, version: int) {
    && e.task.newVersion == version
    && Exec(env, State(DirOf(start, id), Idle), e.script) == State(DirOf(dirs, id), Done(e.task, e.ok))
  }

  /** The journal explains everything on disk: an attempted artifact's directory is the outcome
      of its attempt, which failed or not as recorded; any other directory is untouched. */
  ghost predicate Explains(env: Env, start: map<nat, Dir>, dirs: map<nat, Dir>, version: int,
                           journal: map<nat, Entry>, attempted: set<nat>, failures: set<nat>)
  {
    && (forall id :: id in attempted ==>
         id in journal && Performed(env, start, dirs, id, journal[id], version)
           && (journal[id].ok <==> id !in failures))
    && (forall id :: id !in attempted ==> DirOf(dirs, id) == DirOf(start, id))
  }

  lemma {:induction false} RunEndsConsistent(env: Env, s: State, evs: seq<Event>)
    requires Consistent(s)
    ensures Consistent(Exec(env, s, evs))
    decreases |evs|
  {
    if evs != [] {
      MetaStaysWhole(env, s, evs[0]);
      RunEndsConsistent(env, Next(env, s, evs[0]), evs[1..]);
    }
  }

  /** A successful attempt left its artifact at the new version. */
  lemma SuccessMeansNewVersion(env: Env, start: map<nat, Dir>, dirs: map<nat, Dir>, id: nat, e: Entry, version: int)
    requires Performed(env, start, dirs, id, e, version) && e.ok
    ensures AtVersion(dirs, id, version)
  {
    RunEndsConsistent(env, State(DirOf(start, id), Idle), e.script);
  }

  /** One more attempt in the journal. */
  lemma ExplainsOneMore(env: Env, start: map<nat, Dir>, before: map<nat, Dir>, dirs: map<nat, Dir>, version: int,
                        journal: map<nat, Entry>, attempted: set<nat>, failures: set<nat>, id: nat, e: Entry)
    requires Explains(env, start, before, version, journal, attempted, failures)
    requires id !in attempted && e.task.newVersion == version
    requires dirs == Put(before, id, DirOf(dirs, id))
    requires Exec(env, State(DirOf(before, id), Idle), e.script) == State(DirOf(dirs, id), Done(e.task, e.ok))
    requires failures <= attempted
    ensures Explains(env, start, dirs, version, journal[id := e], attempted + {id},
                     if e.ok then failures else failures + {id})
  {
    assert forall other :: other in attempted ==> other != id && DirOf(dirs, other) == DirOf(before, other);
  }

  /** Every ciphertext that the attempts drew is valid UTF-8. */
  ghost predicate DrewText(env: Env, start: map<nat, Dir>, journal: map<nat, Entry>, attempted: set<nat>) {
    forall id :: id in attempted && id in journal ==> DrawsText(env, State(DirOf(start, id), Idle), journal[id].script)
  }

  /** The mock client draws nothing else. */
  lemma MockDrewText(env: Env, start: map<nat, Dir>, journal: map<nat, Entry>, attempted: set<nat>)
    requires IsMock(env.kms)
    ensures DrewText(env, start, journal, attempted)
  {
    var master: Bytes :| |master| > 0 && env.kms == MockProvider(master);
    forall id | id in attempted && id in journal
      ensures DrawsText(env, State(DirOf(start, id), Idle), journal[id].script)
    {
      MockDrawsText(master, env.keys, State(DirOf(start, id), Idle), journal[id].script);
    }
  }

  /** No data key is lost, whatever the attempts did and wherever they failed. */
  lemma JobKeepsReadable(env: Env, start: map<nat, Dir>, dirs: map<nat, Dir>, version: int,
                         journal: map<nat, Entry>, attempted: set<nat>, failures: set<nat>, deks: map<nat, Bytes>)
    requires Lawful(env.kms) && (IsMock(env.kms) || DrewText(env, start, journal, attempted))
    requires Explains(env, start, dirs, version, journal, attempted, failures) && Readable(env.kms, start, deks)
    ensures Readable(env.kms, dirs, deks)
  {
    if IsMock(env.kms) {
      MockDrewText(env, start, journal, attempted);
    }
    forall id | id in deks
      ensures DirOf(dirs, id).meta.Holds? && Unwraps(env.kms, DirOf(dirs, id).meta.record, deks[id])
    {
      if id in attempted {
        CrashSafe(env, State(DirOf(start, id), Idle), journal[id].script, deks[id]);
      }
    }
  }

  /** The stored master keys of a tenant by version. */
  function TenantKeys(rows: TmkTable.Table, tenant: nat): (keys: map<int, TmkTable.Row>)
    ensures forall v :: v in keys ==> keys[v] in rows && keys[v].tenant == tenant && keys[v].version == v
    ensures forall row :: row in rows && row.tenant == tenant ==> row.version in keys
  {
    if rows == [] then map[]
    else
      var rest := TenantKeys(rows[1..], tenant);
      if rows[0].tenant == tenant then rest[rows[0].version := rows[0]] else rest
  }

  /** When the old key of a job can be derived: the tenant has a key of that version, active or
      not, and the provider opens it. */
  lemma OldKeyDerivable(kms: Provider, rows: TmkTable.Table, tenant: nat, version: int)
    requires VersionsUnique(rows)
    ensures KekDerivable(Env(kms, TenantKeys(rows, tenant)), version)
      <==> exists row :: row in rows && row.tenant == tenant && row.version == version
                         && kms.decrypt(row.kmsKeyId, row.encryptedKey).Some?
  {
    var keys := TenantKeys(rows, tenant);
    if row :| row in rows && row.tenant == tenant && row.version == version
              && kms.decrypt(row.kmsKeyId, row.encryptedKey).Some? {
      var i :| 0 <= i < |rows| && rows[i] == row;
      var j :| 0 <= j < |rows| && rows[j] == keys[version];
      assert !(i < j) && !(j < i);
    }
  }

  lemma LeastExists(ids: set<nat>)
    requires ids != {}
    ensures exists id :: id in ids && forall other :: other in ids ==> id <= other
  {
    var any :| any in ids;
    LeastBelow(ids, any);
  }

  lemma {:induction false} LeastBelow(ids: set<nat>, any: nat)
    requires any in ids
    ensures exists id :: id in ids && forall other :: other in ids ==> id <= other
    decreases any
  {
    if smaller :| smaller in ids && smaller < any {
      LeastBelow(ids, smaller);
    }
  }

  method Least(ids: set<nat>) returns (id: nat)
    requires ids != {}
    ensures id in ids && forall other :: other in ids ==> id <= other
  {
    LeastExists(ids);
    id :| id in ids && forall other :: other in ids ==> id <= other;
  }

  /** SELECT ... WHERE artifact_id > last ORDER BY artifact_id LIMIT n: no id past `last` is left
      out, it is either on the page or beyond everything on it. */
  method QueryPage(table: ArtifactTable, last: nat, n: nat) returns (page: seq<nat>, ghost ids: set<nat>)
    requires n > 0
    ensures Lists(page, ids) && |page| <= n
    ensures ids <= table.Keys && forall id :: id in ids ==> id > last
    ensures forall id :: id in table && id > last && id !in ids ==>
              page != [] && forall other :: other in ids ==> other < id
  {
    page, ids := [], {};
    var rest := set id | id in table && id > last;
    while |page| < n && rest != {}
      invariant Lists(page, ids) && |page| <= n
      invariant ids <= table.Keys && forall id :: id in ids ==> id > last
      invariant forall id :: id in table && id > last ==> id in ids || id in rest
      invariant forall id :: id in rest ==> id in table && id > last && forall other :: other in ids ==> other < id
      decreases rest
    {
      var id := Least(rest);
      ListsSnoc(page, ids, id);
      page, ids, rest := page + [id], ids + {id}, rest - {id};
    }
  }

  /** Reads the rows of a page; a row that does not scan is skipped. */
  method ScanRows(page: seq<nat>, ghost ids: set<nat>, batch: nat, scanFails: (nat, nat) -> bool)
    returns (artifacts: seq<nat>, ghost got: set<nat>)
    requires Lists(page, ids)
    ensures Lists(artifacts, got)
    ensures forall id :: id in got <==> id in ids && !scanFails(batch, id)
  {
    artifacts, got := [], {};
    ghost var todo := ids;
    for i := 0 to |page|
      invariant Lists(page[i..], todo) && Lists(artifacts, got)
      invariant todo <= ids && forall id :: id in got <==> id in ids && id !in todo && !scanFails(batch, id)
      invariant forall done, id :: done in got && id in todo ==> done < id
    {
      var id := page[i];
      ListsStep(page, i, todo);
      if !scanFails(batch, id) {
        ListsSnoc(artifacts, got, id);
        artifacts, got := artifacts + [id], got + {id};
      }
      todo := todo - {id};
    }
  }

  /** The counters count the attempts; only artifacts of the table are attempted. */
  ghost predicate Counted(table: ArtifactTable, processed: nat, succeeded: nat, failed: nat, attempted: set<nat>,
                          failures: set<nat>) {
    && failures <= attempted <= table.Keys
    && processed == |attempted| == succeeded + failed
    && failed == |failures|
  }

  /** The rows of one batch that could be read. Undisturbed, it leaves no id out. */
  method FetchRows(table: ArtifactTable, last: nat, n: nat, batch: nat, faults: Faults)
    returns (artifacts: seq<nat>, ghost got: set<nat>)
    requires n > 0
    ensures Lists(artifacts, got) && got <= table.Keys && forall id :: id in got ==> last < id
    ensures artifacts != [] ==> artifacts[0] in got
    ensures Undisturbed(faults) ==>
              forall id :: id in table && last < id && id !in got ==>
                artifacts != [] && forall g :: g in got ==> g < id
  {
    var page;
    ghost var ids;
    page, ids := QueryPage(table, last, n);
    artifacts, got := ScanRows(page, ids, batch, faults.scanFails);
    if Undisturbed(faults) {
      assert got == ids;
      ListsAscending(artifacts, got);
      ListsAscending(page, ids);
    }
  }

  /** What is done lies at or below `last`, what is to do above it. */
  ghost predicate Split(done: set<nat>, todo: set<nat>, last: nat) {
    (forall id :: id in done ==> id <= last) && (forall id :: id in todo ==> last < id)
  }

  /** Moving the next artifact of a batch from what is to do to what is done. */
  lemma NextInBatch(artifacts: seq<nat>, i: nat, order: seq<nat>, done: set<nat>, todo: set<nat>, last: nat)
    requires i < |artifacts| && Lists(artifacts[i..], todo) && Lists(order, done) && Split(done, todo, last)
    ensures var id := artifacts[i];
            && id in todo && id !in done
            && Lists(order + [id], done + {id}) && Lists(artifacts[i + 1..], todo - {id})
            && (done + {id}) + (todo - {id}) == done + todo
            && Split(done + {id}, todo - {id}, id)
  {
    ListsStep(artifacts, i, todo);
    ListsSnoc(order, done, artifacts[i]);
  }

  lemma NothingLeft(artifacts: seq<nat>, done: set<nat>, before: set<nat>, got: set<nat>, todo: set<nat>)
    requires Lists(artifacts[|artifacts|..], todo) && done + todo == before + got
    ensures done == before + got
  {
    assert artifacts[|artifacts|..] == [];
  }

  class RewrapJob {
    const tenant: nat
    const oldVersion: int
    const newVersion: int
    const batchSize: nat
    /** The artifact table; it is fixed while the job runs. */
    const table: ArtifactTable
    const totalArtifacts: nat

    var status: Status
    var processedCount: nat
    var successCount: nat
    var failedCount: nat
    var currentBatch: nat
    var lastProcessed: Option<nat>
    var errors: seq<JobError>
    /** The ids attempted, the order they were attempted in, and those whose attempt failed. */
    ghost var attempted: set<nat>
    ghost var order: seq<nat>
    ghost var failures: set<nat>

    ghost predicate Valid()
      reads this
    {
      && totalArtifacts == |table| && batchSize > 0
      && Counted(table, processedCount, successCount, failedCount, attempted, failures)
    }

    /** Nothing has been attempted yet. */
    ghost predicate Fresh()
      reads this
    {
      status == Running && attempted == {} && order == [] && failures == {}
    }

    /** The job is counted and registered before it is processed; batch size 0 means 100. */
    constructor (tenant: nat, oldVersion: int, newVersion: int, batchSize: nat, table: ArtifactTable)
      ensures Valid() && Fresh()
      ensures this.tenant == tenant && this.oldVersion == oldVersion && this.newVersion == newVersion
              && this.table == table
      ensures this.batchSize == if batchSize == 0 then 100 else batchSize
    {
      this.tenant, this.oldVersion, this.newVersion := tenant, oldVersion, newVersion;
      this.batchSize := if batchSize == 0 then 100 else batchSize;
      this.table, totalArtifacts := table, |table|;
      status, processedCount, successCount, failedCount, currentBatch := Running, 0, 0, 0, 0;
      lastProcessed, errors, attempted, order, failures := None, [], {}, [], {};
    }

    /** Cancelling only relabels a running job. */
    method Cancel() returns (ok: bool)
      modifies this`status
      ensures ok <==> old(status) == Running
      ensures status == if ok then Cancelled else old(status)
    {
      ok := status == Running;
      if ok { status := Cancelled; }
    }

    /** Counts an attempt that succeeded. */
    method CountSuccess(id: nat)
      requires Valid() && id in table && id !in attempted
      modifies this
      ensures Valid()
      ensures attempted == old(attempted) + {id} && order == old(order) + [id] && lastProcessed == Some(id)
      ensures failures == old(failures) && errors == old(errors)
    {
      successCount := successCount + 1;
      processedCount := processedCount + 1;
      lastProcessed := Some(id);
      attempted, order := attempted + {id}, order + [id];
    }

    /** Counts an attempt that failed. */
    method CountFailure(id: nat)
      requires Valid() && id in table && id !in attempted
      modifies this
      ensures Valid()
      ensures attempted == old(attempted) + {id} && order == old(order) + [id] && lastProcessed == Some(id)
      ensures failures == old(failures) + {id} && errors == old(errors) + [ArtifactFailed(id)]
    {
      failedCount := failedCount + 1;
      errors := errors + [ArtifactFailed(id)];
      processedCount := processedCount + 1;
      lastProcessed := Some(id);
      attempted, order, failures := attempted + {id}, order + [id], failures + {id};
    }

    /** One artifact: attempt the re-wrap, then count it. */
    method ProcessArtifact(store: ArtifactStore, env: Env, id: nat, plan: Plan,
                           ghost start: map<nat, Dir>, ghost journal: map<nat, Entry>)
      returns (ghost after: map<nat, Entry>)
      requires Valid() && Explains(env, start, store.dirs, newVersion, journal, attempted, failures)
      requires id in table && id !in attempted
      modifies store, this
      ensures Valid() && Explains(env, start, store.dirs, newVersion, after, attempted, failures)
      ensures attempted == old(attempted) + {id} && order == old(order) + [id]
    {
      var task := Task(table[id], oldVersion, newVersion);
      var ok;
      ghost var script;
      ghost var before := store.dirs;
      ok, script := store.RewrapArtifact(env, id, task, plan);
      after := journal[id := Entry(task, script, ok)];
      ExplainsOneMore(env, start, before, store.dirs, newVersion, journal, attempted, failures, id,
        Entry(task, script, ok));
      if ok {
        CountSuccess(id);
      } else {
        CountFailure(id);
      }
    }

    /** The artifacts of one batch, in order. */
    method ProcessBatch(store: ArtifactStore, env: Env, artifacts: seq<nat>, ghost got: set<nat>, afterId: nat,
                        plan: nat -> Plan,
                        ghost start: map<nat, Dir>, ghost journal: map<nat, Entry>)
      returns (lastId: nat, ghost after: map<nat, Entry>)
      requires Valid() && Explains(env, start, store.dirs, newVersion, journal, attempted, failures)
      requires Lists(order, attempted) && Lists(artifacts, got) && got <= table.Keys
      requires Split(attempted, got, afterId)
      modifies store, this
      ensures Valid() && Explains(env, start, store.dirs, newVersion, after, attempted, failures)
      ensures Lists(order, attempted)
      ensures attempted == old(attempted) + got
      ensures forall id :: id in attempted ==> id <= lastId
      ensures lastId == afterId || lastId in got
    {
      ghost var todo := got;
      lastId, after := afterId, journal;
      for i := 0 to |artifacts|
        invariant Valid() && Explains(env, start, store.dirs, newVersion, after, attempted, failures)
        invariant Lists(order, attempted) && Lists(artifacts[i..], todo) && todo <= got
        invariant attempted + todo == old(attempted) + got
        invariant Split(attempted, todo, lastId)
        invariant lastId == afterId || lastId in got
      {
        var id := artifacts[i];
        NextInBatch(artifacts, i, order, attempted, todo, lastId);
        after := ProcessArtifact(store, env, id, plan(id), start, after);
        lastId, todo := id, todo - {id};
      }
      NothingLeft(artifacts, attempted, old(attempted), got, todo);
    }

    /** The deferred last word: "completed" exactly when every counted artifact succeeded. */
    method Finish()
      requires Valid()
      modifies this`status
      ensures status == if failures == {} && attempted == table.Keys then Completed else Failed
    {
      assert table.Keys == attempted + (table.Keys - attempted);
      status := if successCount == totalArtifacts then Completed else Failed;
    }

    /** One turn of the batch loop: query the rows after `afterId`, scan them, process them. */
    method ProcessNextBatch(store: ArtifactStore, env: Env, afterId: nat, batch: nat, faults: Faults,
                            ghost start: map<nat, Dir>, ghost journal: map<nat, Entry>)
      returns (lastId: nat, more: bool, ghost after: map<nat, Entry>)
      requires Valid() && Explains(env, start, store.dirs, newVersion, journal, attempted, failures)
      requires Lists(order, attempted) && forall id :: id in attempted ==> id <= afterId
      modifies this, store
      ensures Valid() && Explains(env, start, store.dirs, newVersion, after, attempted, failures)
      ensures Lists(order, attempted) && forall id :: id in attempted ==> id <= lastId
      ensures old(attempted) <= attempted
      ensures forall id :: id in attempted ==> id in old(attempted) || id > afterId
      ensures more ==> exists id :: id in attempted && id !in old(attempted)
      ensures faults.queryFails(batch) ==>
        !more && errors == old(errors) + [QueryFailed(batch)] && attempted == old(attempted)
        && store.dirs == old(store.dirs)
      ensures Undisturbed(faults) ==>
                forall id :: id in table && id > afterId ==> id in attempted || (more && lastId < id)
    {
      currentBatch := batch;
      if faults.cancelIn(batch) { var _ := Cancel(); }
      if faults.queryFails(batch) {
        errors := errors + [QueryFailed(batch)];
        return afterId, false, journal;
      }
      var artifacts;
      ghost var got;
      artifacts, got := FetchRows(table, afterId, batchSize, batch, faults);
      if artifacts == [] {
        return afterId, false, journal;
      }
      ghost var first := artifacts[0];
      lastId, after := ProcessBatch(store, env, artifacts, got, afterId, faults.plan, start, journal);
      assert first in attempted && first !in old(attempted);
      more := true;
    }

    /** The batch loop. The query starts above the all-zero id, which no page therefore shows. */
    method ProcessAll(store: ArtifactStore, env: Env, faults: Faults) returns (ghost journal: map<nat, Entry>)
      requires Valid() && Fresh()
      modifies this, store
      ensures Valid() && Explains(env, old(store.dirs), store.dirs, newVersion, journal, attempted, failures)
      ensures Lists(order, attempted) && 0 !in attempted
      ensures Undisturbed(faults) ==> attempted == table.Keys - {0}
    {
      var lastId: nat := 0;
      var batch: nat := 0;
      var more := true;
      journal := map[];
      while more
        invariant Valid() && Explains(env, old(store.dirs), store.dirs, newVersion, journal, attempted, failures)
        invariant Lists(order, attempted)
        invariant 0 !in attempted && forall id :: id in attempted ==> id <= lastId
        invariant Undisturbed(faults) ==>
                    forall id :: id in table && id != 0 ==> id in attempted || (more && lastId < id)
        decreases table.Keys - attempted, more
      {
        batch := batch + 1;
        lastId, more, journal := ProcessNextBatch(store, env, lastId, batch, faults, old(store.dirs), journal);
      }
    }

    /** The background processing of the job. `deks` are the data keys the artifacts were
        sealed with. */
    method Process(store: ArtifactStore, tmks: TmkService, now: int, faults: Faults, ghost deks: map<nat, Bytes>)
      returns (haveKey: bool, ghost journal: map<nat, Entry>)
      requires Valid() && Fresh() && tmks.Valid()
      modifies this, store, tmks, tmks.keyCache
      ensures Valid() && Lists(order, attempted)
      ensures Explains(Env(tmks.kms, TenantKeys(tmks.rows, tenant)), old(store.dirs), store.dirs, newVersion, journal,
              attempted, failures)
      ensures status == if failures == {} && attempted == table.Keys then Completed else Failed
      ensures status == Completed ==> forall id :: id in table ==> AtVersion(store.dirs, id, newVersion)
      ensures Readable(tmks.kms, old(store.dirs), deks)
              && (IsMock(tmks.kms) || DrewText(Env(tmks.kms, TenantKeys(tmks.rows, tenant)), old(store.dirs), journal,
                attempted))
              ==> Readable(tmks.kms, store.dirs, deks)
      ensures haveKey && Undisturbed(faults) ==> attempted == table.Keys - {0}
      ensures !haveKey ==> attempted == {} && errors == old(errors) + [TmkUnavailable]
    {
      haveKey := tmks.UseActiveTmk(tenant, now, faults.keyQueryFails, faults.keyKmsFails);
      var env := Env(tmks.kms, TenantKeys(tmks.rows, tenant));
      assert Lawful(env.kms);
      journal := map[];
      if haveKey {
        journal := ProcessAll(store, env, faults);
      } else {
        errors := errors + [TmkUnavailable];
      }
      Finish();
      if status == Completed {
        forall id | id in table
          ensures AtVersion(store.dirs, id, newVersion)
        {
          SuccessMeansNewVersion(env, old(store.dirs), store.dirs, id, journal[id], newVersion);
        }
      }
      if Readable(env.kms, old(store.dirs), deks) && (IsMock(env.kms)
        || DrewText(env, old(store.dirs), journal, attempted)) {
        JobKeepsReadable(env, old(store.dirs), store.dirs, newVersion, journal, attempted, failures, deks);
      }
    }
  }
}

/** Chunked uploads: sessions, chunk handlers and completion handlers that run concurrently
    over one session table and one blob store. Each event is one atomic access; a handler is a
    sequence of them, and a run may interleave the events of any number of handlers. */
module ChunkedUpload {
  import opened Utf8
  import opened UploadPlan

  type UploadId = nat
  type Thread = nat

  datatype Session = Session(tenant: nat, totalSize: int, chunkSize: int, uploaded: set<nat>)

  /** A chunk handler past its checks, holding the body it read. */
  datatype Upload = Upload(id: UploadId, chunk: nat, body: Bytes, stored: bool)

  /** A completion handler: the parts it has fetched, and how many chunks it has cleaned up. */
  datatype Completion = Completion(id: UploadId, assembling: bool, parts: seq<Bytes>, cleaned: nat)

  datatype Artifact = Artifact(id: UploadId, parts: seq<Bytes>)

  /** `live` are the ids in the session table; a handler keeps its session after the id is gone.
      `recording` are the completions that have stored their artifact and are about to write its
      record. The last four fields are history: bodies accepted, ids taken by a completion, ids
      whose assembly started, ids whose artifact has a record. */
  datatype World = World(
    sessions: map<UploadId, Session>,
    live: set<UploadId>,
    blobs: map<(UploadId, nat), Bytes>,
    uploads: map<Thread, Upload>,
    completions: map<Thread, Completion>,
    recording: map<Thread, UploadId>,
    artifacts: seq<Artifact>,
    accepted: set<(UploadId, nat, Bytes)>,
    taken: set<UploadId>,
    assembled: set<UploadId>,
    recorded: set<UploadId>)

  datatype Event =
    | Initiate(id: UploadId, tenant: nat, totalSize: int, requestedChunkSize: int)
    | Expire(id: UploadId)
    | Accept(t: Thread, id: UploadId, tenant: nat, chunk: nat, body: Bytes)
    | StoreChunk(t: Thread)
    | Mark(t: Thread)
    | AbortUpload(t: Thread)
    | Take(t: Thread, id: UploadId, tenant: nat)
    | Check(t: Thread)
    | Fetch(t: Thread)
    | Clean(t: Thread, deleted: bool)
    | Finish(t: Thread)
    // the artifact's record is written; or it is not, and the stored artifact is deleted again
    | Record(t: Thread)
    | Withdraw(t: Thread, deleted: bool)
    | AbortCompletion(t: Thread)

  function Chunks(s: Session): int {
    if s.chunkSize == 0 then 0 else TotalChunks(s.totalSize, s.chunkSize)
  }

  function LimitOf(s: Session, chunk: nat): int {
    if s.chunkSize == 0 then 0 else Limit(s.totalSize, s.chunkSize, chunk)
  }

  function Count(s: Session): nat {
    if Chunks(s) < 0 then 0 else Chunks(s)
  }

  /** What a chunk handler checks before it stores anything. */
  predicate Acceptable(w: World, id: UploadId, tenant: nat, chunk: nat, body: Bytes) {
    && id in w.live && id in w.sessions
    && chunk < Chunks(w.sessions[id])
    && tenant == w.sessions[id].tenant
    && |body| <= LimitOf(w.sessions[id], chunk)
  }

  /** One event; an event that does not apply changes nothing. */
  function Next(w: World, ev: Event): World {
    match ev
    case Initiate(id, tenant, totalSize, requested) =>
      if id in w.sessions || totalSize <= 0 then w
      else w.(sessions := w.sessions[id := Session(tenant, totalSize, ChunkSize(requested), {})], live := w.live + {id})
    case Expire(id) => w.(live := w.live - {id})
    case Accept(t, id, tenant, chunk, body) =>
      if t in w.uploads || !Acceptable(w, id, tenant, chunk, body) then w
      else w.(uploads := w.uploads[t := Upload(id, chunk, body, false)], accepted := w.accepted + {(id, chunk, body)})
    case StoreChunk(t) =>
      if t !in w.uploads || w.uploads[t].stored then w
      else
        var u := w.uploads[t];
        w.(blobs := w.blobs[(u.id, u.chunk) := u.body], uploads := w.uploads[t := u.(stored := true)])
    case Mark(t) =>
      if t !in w.uploads || !w.uploads[t].stored || w.uploads[t].id !in w.sessions then w
      else
        var u := w.uploads[t];
        var s := w.sessions[u.id];
        w.(sessions := w.sessions[u.id := s.(uploaded := s.uploaded + {u.chunk})], uploads := w.uploads - {t})
    case AbortUpload(t) => w.(uploads := w.uploads - {t})
    case Take(t, id, tenant) =>
      if t in w.completions || t in w.recording || id !in w.live || id !in w.sessions then w
      else
        var gone := w.(live := w.live - {id}, taken := w.taken + {id});
        if tenant != w.sessions[id].tenant then gone
        else gone.(completions := w.completions[t := Completion(id, false, [], 0)])
    case Check(t) =>
      if t !in w.completions || w.completions[t].assembling || w.completions[t].id !in w.sessions then w
      else
        var c := w.completions[t];
        if |w.sessions[c.id].uploaded| != Chunks(w.sessions[c.id]) then w.(completions := w.completions - {t})
        else w.(completions := w.completions[t := c.(assembling := true)], assembled := w.assembled + {c.id})
    case Fetch(t) =>
      if !Fetching(w, t) then w
      else
        var c := w.completions[t];
        if (c.id, |c.parts|) !in w.blobs then w.(completions := w.completions - {t})
        else w.(completions := w.completions[t := c.(parts := c.parts + [w.blobs[(c.id, |c.parts|)]])])
    case Clean(t, deleted) =>
      if t !in w.completions || !w.completions[t].assembling || |w.completions[t].parts| != w.completions[t].cleaned + 1
        then w
      else
        var c := w.completions[t];
        w.(completions := w.completions[t := c.(cleaned := c.cleaned + 1)],
           blobs := if deleted then w.blobs - {(c.id, c.cleaned)} else w.blobs)
    case Finish(t) =>
      if !Finishing(w, t) then w
      else
        var c := w.completions[t];
        w.(artifacts := w.artifacts + [Artifact(c.id, c.parts)], completions := w.completions - {t},
          recording := w.recording[t := c.id])
    case Record(t) =>
      if t !in w.recording then w
      else w.(recorded := w.recorded + {w.recording[t]}, recording := w.recording - {t})
    case Withdraw(t, deleted) =>
      if t !in w.recording then w
      else w.(artifacts := if deleted then Without(w.artifacts, w.recording[t])
        else w.artifacts, recording := w.recording - {t})
    case AbortCompletion(t) => w.(completions := w.completions - {t})
  }

  function Without(artifacts: seq<Artifact>, id: UploadId): seq<Artifact> {
    if artifacts == [] then []
    else
      var last := artifacts[|artifacts| - 1];
      Without(artifacts[..|artifacts| - 1], id) + (if last.id == id then [] else [last])
  }

  /** The assembly loop is about to fetch the next chunk. */
  predicate Fetching(w: World, t: Thread) {
    && t in w.completions && w.completions[t].assembling && w.completions[t].id in w.sessions
    && |w.completions[t].parts| == w.completions[t].cleaned < Count(w.sessions[w.completions[t].id])
  }

  /** The assembly loop is over and the artifact is about to be stored. */
  predicate Finishing(w: World, t: Thread) {
    && t in w.completions && t !in w.recording && w.completions[t].assembling && w.completions[t].id in w.sessions
    && |w.completions[t].parts| == w.completions[t].cleaned == Count(w.sessions[w.completions[t].id])
  }

  function Exec(w: World, evs: seq<Event>): World
    decreases |evs|
  {
    if evs == [] then w else Exec(Next(w, evs[0]), evs[1..])
  }

  ghost predicate IsStart(w: World) {
    w == World(map[], {}, map[], map[], map[], map[], [], {}, {}, {}, {})
  }

  // ---------- The invariant ----------

  ghost predicate SessionsOk(w: World) {
    && w.live <= w.sessions.Keys && w.live !! w.taken && w.taken <= w.sessions.Keys && w.assembled <= w.taken
    && (forall id :: id in w.sessions ==> w.sessions[id].totalSize > 0 && w.sessions[id].chunkSize != 0)
    && (forall id, i :: id in w.sessions && i in w.sessions[id].uploaded ==> i < Chunks(w.sessions[id]))
  }

  /** Only bodies within the limit of a valid chunk are accepted, and only accepted bodies travel. */
  ghost predicate BodiesOk(w: World) {
    && (forall a :: a in w.accepted ==>
         a.0 in w.sessions && a.1 < Chunks(w.sessions[a.0]) && |a.2| <= LimitOf(w.sessions[a.0], a.1))
    && (forall t :: t in w.uploads ==> (w.uploads[t].id, w.uploads[t].chunk, w.uploads[t].body) in w.accepted)
    && (forall b :: b in w.blobs ==> (b.0, b.1, w.blobs[b]) in w.accepted)
  }

  /** Until the assembly of its session starts, a chunk that was stored or marked is there. */
  ghost predicate BlobsOk(w: World) {
    && (forall id, i :: id in w.sessions && id !in w.assembled && i in w.sessions[id].uploaded ==> (id, i) in w.blobs)
    && (forall t :: t in w.uploads && w.uploads[t].stored && w.uploads[t].id !in w.assembled ==>
         (w.uploads[t].id, w.uploads[t].chunk) in w.blobs)
  }

  /** A completion holds one accepted body per index fetched so far, and what it still has to
      fetch is there. */
  ghost predicate CompletionOk(w: World, c: Completion) {
    && c.id in w.taken && c.id in w.sessions
    && (c.assembling <==> c.id in w.assembled) && (c.assembling ==> Chunks(w.sessions[c.id]) >= 0)
    && (!c.assembling ==> c.parts == [] && c.cleaned == 0)
    && c.cleaned <= |c.parts| <= c.cleaned + 1 && |c.parts| <= Count(w.sessions[c.id])
    && (forall i :: 0 <= i < |c.parts| ==> (c.id, i, c.parts[i]) in w.accepted)
    && (c.assembling ==> forall i: nat :: |c.parts| <= i < Count(w.sessions[c.id]) ==> (c.id, i) in w.blobs)
  }

  ghost predicate CompletionsOk(w: World) {
    && (forall t :: t in w.completions ==> CompletionOk(w, w.completions[t]))
    && (forall t, t' ::
          t in w.completions && t' in w.completions && t != t' ==> w.completions[t].id != w.completions[t'].id)
  }

  ghost predicate ArtifactOk(w: World, a: Artifact) {
    && a.id in w.assembled && a.id in w.sessions
    && |a.parts| == Chunks(w.sessions[a.id])
    && (forall i :: 0 <= i < |a.parts| ==> (a.id, i, a.parts[i]) in w.accepted)
  }

  /** Stored artifacts are complete, at most one per session, and their completion is over. */
  ghost predicate ArtifactsOk(w: World) {
    && (forall k :: 0 <= k < |w.artifacts| ==> ArtifactOk(w, w.artifacts[k]))
    && (forall j, k :: 0 <= j < k < |w.artifacts| ==> w.artifacts[j].id != w.artifacts[k].id)
    && (forall k, t :: 0 <= k < |w.artifacts| && t in w.completions ==> w.artifacts[k].id != w.completions[t].id)
  }

  ghost predicate Core(w: World) {
    SessionsOk(w) && BodiesOk(w) && BlobsOk(w) && CompletionsOk(w) && ArtifactsOk(w)
  }

  /** As many distinct indices below n as n: all of them. */
  lemma {:induction false} AllIndices(s: set<nat>, n: nat)
    requires |s| == n && forall i :: i in s ==> i < n
    ensures forall i: nat :: i < n ==> i in s
  {
    if n > 0 {
      if n - 1 in s {
        AllIndices(s - {n - 1}, n - 1);
      } else {
        TooMany(s, n - 1);
      }
    }
  }

  lemma {:induction false} TooMany(s: set<nat>, n: nat)
    requires forall i :: i in s ==> i < n
    ensures |s| <= n
  {
    if n > 0 {
      TooMany(s - {n - 1}, n - 1);
    }
  }

  lemma InitiateKeepsSessions(w: World, ev: Event)
    requires Core(w) && ev.Initiate?
    ensures SessionsOk(Next(w, ev))
  {
  }

  lemma InitiateKeepsBlobs(w: World, ev: Event)
    requires Core(w) && ev.Initiate?
    ensures BlobsOk(Next(w, ev))
  {
  }

  lemma InitiateKeepsBodies(w: World, ev: Event)
    requires Core(w) && ev.Initiate?
    ensures BodiesOk(Next(w, ev))
  {
  }

  lemma InitiateKeepsCompletions(w: World, ev: Event)
    requires Core(w) && ev.Initiate?
    ensures CompletionsOk(Next(w, ev)) && ArtifactsOk(Next(w, ev))
  {
  }

  lemma InitiateKeeps(w: World, ev: Event)
    requires Core(w) && ev.Initiate?
    ensures Core(Next(w, ev))
  {
    InitiateKeepsSessions(w, ev);
    InitiateKeepsBlobs(w, ev);
    InitiateKeepsBodies(w, ev);
    InitiateKeepsCompletions(w, ev);
  }

  lemma ExpireKeeps(w: World, ev: Event)
    requires Core(w) && ev.Expire?
    ensures Core(Next(w, ev))
  {
  }

  lemma AcceptKeepsSessions(w: World, ev: Event)
    requires Core(w) && ev.Accept?
    ensures SessionsOk(Next(w, ev)) && BlobsOk(Next(w, ev))
  {
  }

  lemma AcceptKeepsBodies(w: World, ev: Event)
    requires Core(w) && ev.Accept?
    ensures BodiesOk(Next(w, ev))
  {
  }

  lemma AcceptKeepsCompletions(w: World, ev: Event)
    requires Core(w) && ev.Accept?
    ensures CompletionsOk(Next(w, ev)) && ArtifactsOk(Next(w, ev))
  {
    var after := Next(w, ev);
    forall t | t in after.completions ensures CompletionOk(after, after.completions[t]) {
      assert CompletionOk(w, w.completions[t]);
    }
    forall k | 0 <= k < |after.artifacts| ensures ArtifactOk(after, after.artifacts[k]) {
      assert ArtifactOk(w, w.artifacts[k]);
    }
  }

  lemma AcceptKeeps(w: World, ev: Event)
    requires Core(w) && ev.Accept?
    ensures Core(Next(w, ev))
  {
    AcceptKeepsSessions(w, ev);
    AcceptKeepsBodies(w, ev);
    AcceptKeepsCompletions(w, ev);
  }

  lemma StoreChunkKeeps(w: World, ev: Event)
    requires Core(w) && ev.StoreChunk?
    ensures Core(Next(w, ev))
  {
  }

  lemma MarkKeepsBodies(w: World, ev: Event)
    requires Core(w) && ev.Mark?
    ensures SessionsOk(Next(w, ev)) && BodiesOk(Next(w, ev)) && BlobsOk(Next(w, ev))
  {
  }

  lemma MarkKeepsCompletions(w: World, ev: Event)
    requires Core(w) && ev.Mark?
    ensures CompletionsOk(Next(w, ev)) && ArtifactsOk(Next(w, ev))
  {
  }

  lemma MarkKeeps(w: World, ev: Event)
    requires Core(w) && ev.Mark?
    ensures Core(Next(w, ev))
  {
    MarkKeepsBodies(w, ev);
    MarkKeepsCompletions(w, ev);
  }

  lemma AbortUploadKeeps(w: World, ev: Event)
    requires Core(w) && ev.AbortUpload?
    ensures Core(Next(w, ev))
  {
  }

  lemma TakingKeeps(w: World, id: UploadId)
    requires Core(w) && id in w.live
    ensures Core(w.(live := w.live - {id}, taken := w.taken + {id}))
  {
  }

  /** A completion that has just won the session. */
  lemma NewCompletionKeeps(w: World, t: Thread, id: UploadId)
    requires Core(w) && t !in w.completions && id in w.taken && id !in w.assembled
    requires forall t' :: t' in w.completions ==> w.completions[t'].id != id
    ensures Core(w.(completions := w.completions[t := Completion(id, false, [], 0)]))
  {
    var after := w.(completions := w.completions[t := Completion(id, false, [], 0)]);
    assert SessionsOk(after) && BodiesOk(after) && BlobsOk(after);
    assert forall t' :: t' in w.completions ==> CompletionOk(after, w.completions[t']);
    assert CompletionOk(after, after.completions[t]);
    assert forall k :: 0 <= k < |w.artifacts| ==> ArtifactOk(after, w.artifacts[k]) && w.artifacts[k].id != id;
  }

  lemma TakeKeeps(w: World, ev: Event)
    requires Core(w) && ev.Take?
    ensures Core(Next(w, ev))
  {
    if ev.t !in w.completions && ev.id in w.live {
      assert forall t :: t in w.completions ==> CompletionOk(w, w.completions[t]);
      TakingKeeps(w, ev.id);
      if ev.tenant == w.sessions[ev.id].tenant {
        NewCompletionKeeps(w.(live := w.live - {ev.id}, taken := w.taken + {ev.id}), ev.t, ev.id);
      }
    }
  }

  /** The assembly starts with every chunk present. */
  lemma AssemblyStartKeeps(w: World, t: Thread)
    requires Core(w) && t in w.completions && !w.completions[t].assembling
    requires |w.sessions[w.completions[t].id].uploaded| == Chunks(w.sessions[w.completions[t].id])
    ensures Core(w.(completions := w.completions[t := w.completions[t].(assembling := true)],
            assembled := w.assembled + {w.completions[t].id}))
  {
    AssemblyStartKeepsBodies(w, t);
    AssemblyStartKeepsCompletions(w, t);
  }

  lemma AssemblyStartKeepsBodies(w: World, t: Thread)
    requires Core(w) && t in w.completions && !w.completions[t].assembling
    ensures var after := w.(completions := w.completions[t := w.completions[t].(assembling := true)],
            assembled := w.assembled + {w.completions[t].id});
            SessionsOk(after) && BodiesOk(after) && BlobsOk(after) && ArtifactsOk(after)
  {
    assert CompletionOk(w, w.completions[t]);
    var after := w.(completions := w.completions[t := w.completions[t].(assembling := true)],
      assembled := w.assembled + {w.completions[t].id});
    assert forall k :: 0 <= k < |w.artifacts| ==> ArtifactOk(after, w.artifacts[k]);
  }

  lemma AssemblyStartKeepsCompletions(w: World, t: Thread)
    requires Core(w) && t in w.completions && !w.completions[t].assembling
    requires |w.sessions[w.completions[t].id].uploaded| == Chunks(w.sessions[w.completions[t].id])
    ensures CompletionsOk(w.(completions := w.completions[t := w.completions[t].(assembling := true)],
            assembled := w.assembled + {w.completions[t].id}))
  {
    var c := w.completions[t];
    var after := w.(completions := w.completions[t := c.(assembling := true)], assembled := w.assembled + {c.id});
    StartedIsOk(w, t);
    forall t' | t' in w.completions && t' != t
      ensures CompletionOk(after, w.completions[t'])
    {
      assert CompletionOk(w, w.completions[t']) && w.completions[t'].id != c.id;
    }
  }

  lemma StartedIsOk(w: World, t: Thread)
    requires SessionsOk(w) && BlobsOk(w) && t in w.completions && CompletionOk(w, w.completions[t])
             && !w.completions[t].assembling
    requires |w.sessions[w.completions[t].id].uploaded| == Chunks(w.sessions[w.completions[t].id])
    ensures CompletionOk(w.(completions := w.completions[t := w.completions[t].(assembling := true)],
            assembled := w.assembled + {w.completions[t].id}),
                         w.completions[t].(assembling := true))
  {
    var id := w.completions[t].id;
    AllIndices(w.sessions[id].uploaded, Count(w.sessions[id]));
  }

  lemma CheckKeeps(w: World, ev: Event)
    requires Core(w) && ev.Check?
    ensures Core(Next(w, ev))
  {
    var t := ev.t;
    if t in w.completions && !w.completions[t].assembling {
      var id := w.completions[t].id;
      assert CompletionOk(w, w.completions[t]);
      if |w.sessions[id].uploaded| == Chunks(w.sessions[id]) {
        AssemblyStartKeeps(w, t);
      } else {
        AbortCompletionKeeps(w, AbortCompletion(t));
      }
    }
  }

  lemma FetchKeepsBodies(w: World, ev: Event)
    requires Core(w) && ev.Fetch?
    ensures SessionsOk(Next(w, ev)) && BodiesOk(Next(w, ev)) && BlobsOk(Next(w, ev))
  {
  }

  /** A completion handler moves on; nothing else changes. */
  lemma CompletionChanges(w: World, t: Thread, c: Completion)
    requires CompletionsOk(w) && ArtifactsOk(w) && t in w.completions
    requires c.id == w.completions[t].id && CompletionOk(w, c)
    ensures CompletionsOk(w.(completions := w.completions[t := c]))
            && ArtifactsOk(w.(completions := w.completions[t := c]))
  {
    var after := w.(completions := w.completions[t := c]);
    forall t' | t' in after.completions ensures CompletionOk(after, after.completions[t']) {
      assert t' != t ==> CompletionOk(w, w.completions[t']);
    }
    forall k | 0 <= k < |w.artifacts| ensures ArtifactOk(after, w.artifacts[k]) && w.artifacts[k].id != c.id {
      assert ArtifactOk(w, w.artifacts[k]);
    }
  }

  lemma FetchedIsOk(w: World, t: Thread)
    requires BodiesOk(w) && Fetching(w, t) && CompletionOk(w, w.completions[t])
    ensures var c := w.completions[t];
            (c.id, |c.parts|) in w.blobs && CompletionOk(w, c.(parts := c.parts + [w.blobs[(c.id, |c.parts|)]]))
  {
  }

  lemma FetchKeepsCompletions(w: World, ev: Event)
    requires Core(w) && ev.Fetch?
    ensures CompletionsOk(Next(w, ev)) && ArtifactsOk(Next(w, ev))
  {
    if Fetching(w, ev.t) {
      var c := w.completions[ev.t];
      FetchedIsOk(w, ev.t);
      CompletionChanges(w, ev.t, c.(parts := c.parts + [w.blobs[(c.id, |c.parts|)]]));
    }
  }

  lemma FetchKeeps(w: World, ev: Event)
    requires Core(w) && ev.Fetch?
    ensures Core(Next(w, ev))
  {
    FetchKeepsBodies(w, ev);
    FetchKeepsCompletions(w, ev);
  }

  lemma CleanKeepsBodies(w: World, ev: Event)
    requires Core(w) && ev.Clean?
    ensures SessionsOk(Next(w, ev)) && BodiesOk(Next(w, ev)) && BlobsOk(Next(w, ev))
  {
  }

  /** A chunk that its completion has fetched may be deleted. */
  lemma DeletionKeepsCompletions(w: World, t: Thread)
    requires CompletionsOk(w) && ArtifactsOk(w) && t in w.completions
             && w.completions[t].cleaned < |w.completions[t].parts|
    ensures var after := w.(blobs := w.blobs - {(w.completions[t].id, w.completions[t].cleaned)});
            CompletionsOk(after) && ArtifactsOk(after)
  {
    var c := w.completions[t];
    var after := w.(blobs := w.blobs - {(c.id, c.cleaned)});
    forall t' | t' in w.completions ensures CompletionOk(after, w.completions[t']) {
      assert CompletionOk(w, w.completions[t']) && (t' != t ==> w.completions[t'].id != c.id);
    }
    forall k | 0 <= k < |w.artifacts| ensures ArtifactOk(after, w.artifacts[k]) {
      assert ArtifactOk(w, w.artifacts[k]);
    }
  }

  lemma CleanKeepsCompletions(w: World, ev: Event)
    requires Core(w) && ev.Clean?
    ensures CompletionsOk(Next(w, ev)) && ArtifactsOk(Next(w, ev))
  {
    var t := ev.t;
    if t in w.completions && w.completions[t].assembling && |w.completions[t].parts| == w.completions[t].cleaned + 1 {
      var c := w.completions[t];
      var cleared := if ev.deleted then w.(blobs := w.blobs - {(c.id, c.cleaned)}) else w;
      if ev.deleted {
        DeletionKeepsCompletions(w, t);
      }
      CleanedIsOk(cleared, c);
      CompletionChanges(cleared, t, c.(cleaned := c.cleaned + 1));
    }
  }

  lemma CleanedIsOk(w: World, c: Completion)
    requires CompletionOk(w, c) && c.assembling && |c.parts| == c.cleaned + 1
    ensures CompletionOk(w, c.(cleaned := c.cleaned + 1))
  {
  }

  lemma CleanKeeps(w: World, ev: Event)
    requires Core(w) && ev.Clean?
    ensures Core(Next(w, ev))
  {
    CleanKeepsBodies(w, ev);
    CleanKeepsCompletions(w, ev);
  }

  lemma FinishKeepsBodies(w: World, ev: Event)
    requires Core(w) && ev.Finish?
    ensures SessionsOk(Next(w, ev)) && BodiesOk(Next(w, ev)) && BlobsOk(Next(w, ev))
  {
  }

  lemma FinishKeepsCompletions(w: World, ev: Event)
    requires Core(w) && ev.Finish?
    ensures CompletionsOk(Next(w, ev))
  {
    var after := Next(w, ev);
    forall t | t in after.completions ensures CompletionOk(after, after.completions[t]) {
      assert CompletionOk(w, w.completions[t]);
    }
  }

  lemma FinishKeepsArtifacts(w: World, ev: Event)
    requires Core(w) && ev.Finish?
    ensures ArtifactsOk(Next(w, ev))
  {
    if Finishing(w, ev.t) {
      FinishedIsOk(w, ev.t);
      var after := Next(w, ev);
      forall k | 0 <= k < |after.artifacts| ensures ArtifactOk(after, after.artifacts[k]) {
        assert ArtifactOk(w, after.artifacts[k]);
      }
    }
  }

  lemma FinishKeeps(w: World, ev: Event)
    requires Core(w) && ev.Finish?
    ensures Core(Next(w, ev))
  {
    FinishKeepsBodies(w, ev);
    FinishKeepsCompletions(w, ev);
    FinishKeepsArtifacts(w, ev);
  }

  lemma FinishedIsOk(w: World, t: Thread)
    requires CompletionsOk(w) && Finishing(w, t)
    ensures ArtifactOk(w, Artifact(w.completions[t].id, w.completions[t].parts))
  {
    assert CompletionOk(w, w.completions[t]);
  }

  lemma AbortCompletionKeeps(w: World, ev: Event)
    requires Core(w) && ev.AbortCompletion?
    ensures Core(Next(w, ev))
  {
  }

  lemma RecordKeeps(w: World, ev: Event)
    requires Core(w) && ev.Record?
    ensures Core(Next(w, ev))
  {
    CoreOf(w, Next(w, ev));
  }

  /** The parts of a world that `Core` does not read may change, and artifacts may go. */
  lemma CoreOf(w: World, after: World)
    requires Core(w) && after == w.(recording := after.recording, recorded := after.recorded,
             artifacts := after.artifacts)
    requires forall k :: 0 <= k < |after.artifacts| ==> after.artifacts[k] in w.artifacts
    requires forall j, k :: 0 <= j < k < |after.artifacts| ==> after.artifacts[j].id != after.artifacts[k].id
    ensures Core(after)
  {
    assert forall t :: t in w.completions ==> CompletionOk(after, w.completions[t]);
    assert forall k :: 0 <= k < |after.artifacts| ==> ArtifactOk(w, after.artifacts[k]);
    assert SessionsOk(after) && BodiesOk(after) && BlobsOk(after) && CompletionsOk(after);
  }

  lemma {:induction false} WithoutKeeps(artifacts: seq<Artifact>, id: UploadId)
    requires forall j, k :: 0 <= j < k < |artifacts| ==> artifacts[j].id != artifacts[k].id
    ensures var rest := Without(artifacts, id);
            && (forall a :: a in rest <==> a in artifacts && a.id != id)
            && (forall j, k :: 0 <= j < k < |rest| ==> rest[j].id != rest[k].id)
  {
    if artifacts != [] {
      var front, last := artifacts[..|artifacts| - 1], artifacts[|artifacts| - 1];
      WithoutKeeps(front, id);
      assert artifacts == front + [last];
      assert forall a :: a in front ==> a.id != last.id;
    }
  }

  lemma WithdrawKeeps(w: World, ev: Event)
    requires Core(w) && ev.Withdraw?
    ensures Core(Next(w, ev))
  {
    if ev.t in w.recording {
      WithoutKeeps(w.artifacts, w.recording[ev.t]);
      CoreOf(w, Next(w, ev));
    }
  }

  lemma StepKeepsCore(w: World, ev: Event)
    requires Core(w)
    ensures Core(Next(w, ev))
  {
    match ev
    case Initiate(_, _, _, _) => InitiateKeeps(w, ev);
    case Expire(_) => ExpireKeeps(w, ev);
    case Accept(_, _, _, _, _) => AcceptKeeps(w, ev);
    case StoreChunk(_) => StoreChunkKeeps(w, ev);
    case Mark(_) => MarkKeeps(w, ev);
    case AbortUpload(_) => AbortUploadKeeps(w, ev);
    case Take(_, _, _) => TakeKeeps(w, ev);
    case Check(_) => CheckKeeps(w, ev);
    case Fetch(_) => FetchKeeps(w, ev);
    case Clean(_, _) => CleanKeeps(w, ev);
    case Finish(_) => FinishKeeps(w, ev);
    case AbortCompletion(_) => AbortCompletionKeeps(w, ev);
    case Record(_) => RecordKeeps(w, ev);
    case Withdraw(_, _) => WithdrawKeeps(w, ev);
  }

  // ---------- Records ----------

  ghost predicate Stored(w: World, id: UploadId) {
    exists k :: 0 <= k < |w.artifacts| && w.artifacts[k].id == id
  }

  lemma {:induction false} WithoutHas(artifacts: seq<Artifact>, id: UploadId, k: nat)
    requires k < |artifacts| && artifacts[k].id != id
    ensures exists j :: 0 <= j < |Without(artifacts, id)| && Without(artifacts, id)[j].id == artifacts[k].id
  {
    var front := artifacts[..|artifacts| - 1];
    var rest := Without(artifacts, id);
    if k < |front| {
      WithoutHas(front, id, k);
      var j :| 0 <= j < |Without(front, id)| && Without(front, id)[j].id == artifacts[k].id;
      assert rest[j] == Without(front, id)[j];
    } else {
      assert rest[|rest| - 1] == artifacts[k];
    }
  }

  /** What is recorded or about to be is stored, and no two threads are about to record the same. */
  ghost predicate RecordsOk(w: World) {
    && (forall id :: id in w.recorded ==> Stored(w, id))
    && (forall t :: t in w.recording ==> Stored(w, w.recording[t]) && w.recording[t] !in w.recorded)
    && (forall t, t' :: t in w.recording && t' in w.recording && t != t' ==> w.recording[t] != w.recording[t'])
  }

  ghost predicate Inv(w: World) {
    Core(w) && RecordsOk(w)
  }

  lemma FinishKeepsRecords(w: World, ev: Event)
    requires Inv(w) && ev.Finish?
    ensures RecordsOk(Next(w, ev))
  {
    var after := Next(w, ev);
    if Finishing(w, ev.t) {
      var id := w.completions[ev.t].id;
      assert after.artifacts[|w.artifacts|].id == id;
      forall other | Stored(w, other) ensures Stored(after, other) && other != id {
        var k :| 0 <= k < |w.artifacts| && w.artifacts[k].id == other;
        assert after.artifacts[k].id == other;
      }
    }
  }

  lemma WithdrawKeepsRecords(w: World, ev: Event)
    requires RecordsOk(w) && ev.Withdraw?
    ensures RecordsOk(Next(w, ev))
  {
    if ev.t in w.recording && ev.deleted {
      forall other | Stored(w, other) && other != w.recording[ev.t] ensures Stored(Next(w, ev), other) {
        var k :| 0 <= k < |w.artifacts| && w.artifacts[k].id == other;
        WithoutHas(w.artifacts, w.recording[ev.t], k);
      }
    } else {
      assert Next(w, ev).artifacts == w.artifacts;
      assert forall other :: Stored(w, other) ==> Stored(Next(w, ev), other);
    }
  }

  lemma StepKeeps(w: World, ev: Event)
    requires Inv(w)
    ensures Inv(Next(w, ev))
  {
    StepKeepsCore(w, ev);
    if ev.Finish? {
      FinishKeepsRecords(w, ev);
    } else if ev.Withdraw? {
      WithdrawKeepsRecords(w, ev);
    } else {
      OtherKeepsArtifacts(w, ev);
      OtherKeepsRecords(w, Next(w, ev), ev);
    }
  }

  lemma OtherKeepsRecords(w: World, after: World, ev: Event)
    requires RecordsOk(w) && after.artifacts == w.artifacts
    requires if ev.Record? && ev.t in w.recording
             then after.recording == w.recording - {ev.t} && after.recorded == w.recorded + {w.recording[ev.t]}
             else after.recording == w.recording && after.recorded == w.recorded
    ensures RecordsOk(after)
  {
    assert forall id :: Stored(w, id) ==> Stored(after, id);
  }

  lemma OtherKeepsArtifacts(w: World, ev: Event)
    requires !ev.Finish? && !ev.Withdraw?
    ensures Next(w, ev).artifacts == w.artifacts
    ensures ev.Record? && ev.t in w.recording ==>
      Next(w, ev).recording == w.recording - {ev.t} && Next(w, ev).recorded == w.recorded + {w.recording[ev.t]}
    ensures !ev.Record? || ev.t !in w.recording ==>
      Next(w, ev).recording == w.recording && Next(w, ev).recorded == w.recorded
  {
  }

  /** Every interleaving of uploads, expiries and completions keeps the invariant. */
  lemma {:induction false} RunKeeps(w: World, evs: seq<Event>)
    requires Inv(w)
    ensures Inv(Exec(w, evs))
    decreases |evs|
  {
    if evs != [] {
      StepKeeps(w, evs[0]);
      RunKeeps(Next(w, evs[0]), evs[1..]);
    }
  }

  lemma StartIsSound(w: World)
    requires IsStart(w)
    ensures Inv(w)
  {
  }

  lemma {:induction false} ExecAppend(w: World, evs: seq<Event>, ev: Event)
    ensures Exec(w, evs + [ev]) == Next(Exec(w, evs), ev)
    decreases |evs|
  {
    if evs == [] {
      assert evs + [ev] == [ev];
    } else {
      assert (evs + [ev])[1..] == evs[1..] + [ev];
      ExecAppend(Next(w, evs[0]), evs[1..], ev);
    }
  }

  // ---------- What a stored artifact is ----------

  /** In any interleaving, a stored artifact is the in-order concatenation of one accepted body
      for every chunk index, and no longer than announced. */
  lemma StoredArtifactIsComplete(start: World, evs: seq<Event>, k: nat)
    requires IsStart(start) && k < |Exec(start, evs).artifacts|
    ensures var w := Exec(start, evs);
            var a := w.artifacts[k];
            && a.id in w.sessions && |a.parts| == Count(w.sessions[a.id])
            && (forall i :: 0 <= i < |a.parts| ==> (a.id, i, a.parts[i]) in w.accepted)
            && |Flatten(a.parts)| <= w.sessions[a.id].totalSize
            && (forall j :: 0 <= j < |w.artifacts| && j != k ==> w.artifacts[j].id != a.id)
  {
    StartIsSound(start);
    RunKeeps(start, evs);
    var w := Exec(start, evs);
    var a := w.artifacts[k];
    assert ArtifactOk(w, a);
    WithinAnnouncedSize(w, a);
  }

  lemma WithinAnnouncedSize(w: World, a: Artifact)
    requires SessionsOk(w) && BodiesOk(w) && ArtifactOk(w, a)
    ensures |Flatten(a.parts)| <= w.sessions[a.id].totalSize
  {
    var s := w.sessions[a.id];
    forall i: nat | i < |a.parts|
      ensures |a.parts[i]| <= Limit(s.totalSize, s.chunkSize, i)
    {
      assert (a.id, i, a.parts[i]) in w.accepted;
    }
    FlattenWithinLimits(s.totalSize, s.chunkSize, a.parts);
    LimitsSumToTotal(s.totalSize, s.chunkSize);
    if s.chunkSize < 0 {
      NegativeChunks(s.totalSize, s.chunkSize);
      assert SumLimits(s.totalSize, s.chunkSize, 0) == 0;
      assert Count(s) == 1 ==> SumLimits(s.totalSize, s.chunkSize, 1) == Limit(s.totalSize, s.chunkSize, 0);
    }
  }

  // ---------- Who may upload and complete ----------

  /** A chunk is taken up exactly if its handler is new, the session is listed and of the same
      tenant, the chunk is one of its plan and the body within that chunk's limit. */
  lemma AcceptedIff(w: World, t: Thread, id: UploadId, tenant: nat, chunk: nat, body: Bytes)
    ensures Next(w, Accept(t, id, tenant, chunk, body)) != w
      <==> && t !in w.uploads && id in w.live && id in w.sessions
           && w.sessions[id].tenant == tenant
           && chunk < Chunks(w.sessions[id]) && |body| <= LimitOf(w.sessions[id], chunk)
  {
    if Next(w, Accept(t, id, tenant, chunk, body)) != w {
      assert Acceptable(w, id, tenant, chunk, body);
    } else if t !in w.uploads {
      assert t in w.uploads.Keys + {t};
    }
  }

  /** A completion proceeds exactly if its handler is idle, the session is listed and of the same
      tenant. */
  lemma TakenIff(w: World, t: Thread, id: UploadId, tenant: nat)
    requires t !in w.completions
    ensures t in Next(w, Take(t, id, tenant)).completions
      <==> t !in w.recording && id in w.live && id in w.sessions && w.sessions[id].tenant == tenant
  {
  }

  /** The run contains an acceptance of this body by the session's own tenant. */
  ghost predicate OwnUpload(evs: seq<Event>, id: UploadId, tenant: nat, chunk: nat, body: Bytes) {
    exists i :: 0 <= i < |evs| && evs[i].Accept? && evs[i].id == id && evs[i].tenant == tenant
                && evs[i].chunk == chunk && evs[i].body == body
  }

  lemma OwnUploadStays(evs: seq<Event>, ev: Event, id: UploadId, tenant: nat, chunk: nat, body: Bytes)
    requires OwnUpload(evs, id, tenant, chunk, body)
    ensures OwnUpload(evs + [ev], id, tenant, chunk, body)
  {
    var i :| 0 <= i < |evs| && evs[i].Accept? && evs[i].id == id && evs[i].tenant == tenant
             && evs[i].chunk == chunk && evs[i].body == body;
    assert (evs + [ev])[i] == evs[i];
  }

  /** What an event adds to the bodies accepted is its own, by its session's tenant. */
  lemma AcceptsOwn(w: World, ev: Event, a: (UploadId, nat, Bytes))
    requires a in Next(w, ev).accepted && a !in w.accepted
    ensures ev.Accept? && ev.id == a.0 && ev.chunk == a.1 && ev.body == a.2
    ensures a.0 in w.sessions && w.sessions[a.0].tenant == ev.tenant
  {
    if ev.Accept? {
      AcceptedIff(w, ev.t, ev.id, ev.tenant, ev.chunk, ev.body);
    }
  }

  /** Over every run: each body accepted for a session was uploaded by that session's tenant, so
      everything in an artifact was. */
  lemma {:induction false} OnlyOwnUploads(start: World, evs: seq<Event>, a: (UploadId, nat, Bytes))
    requires IsStart(start) && a in Exec(start, evs).accepted
    ensures a.0 in Exec(start, evs).sessions
    ensures OwnUpload(evs, a.0, Exec(start, evs).sessions[a.0].tenant, a.1, a.2)
    decreases |evs|
  {
    if evs != [] {
      var before, ev := evs[..|evs| - 1], evs[|evs| - 1];
      assert evs == before + [ev];
      ExecAppend(start, before, ev);
      var w := Exec(start, before);
      if a in w.accepted {
        OnlyOwnUploads(start, before, a);
        SessionStays(w, ev, a.0);
        OwnUploadStays(before, ev, a.0, w.sessions[a.0].tenant, a.1, a.2);
      } else {
        AcceptsOwn(w, ev, a);
        SessionStays(w, ev, a.0);
        assert evs[|evs| - 1] == ev;
      }
    }
  }

  // ---------- Uploading a payload ----------

  /** Every piece of a payload is accepted by a listed session of its size. */
  lemma PieceIsAcceptable(w: World, id: UploadId, payload: Bytes, i: nat)
    requires id in w.live && id in w.sessions && w.sessions[id].chunkSize > 0
    requires |payload| == w.sessions[id].totalSize > 0 && i < Chunks(w.sessions[id])
    ensures Acceptable(w, id, w.sessions[id].tenant, i, Piece(payload, w.sessions[id].chunkSize, i))
  {
    PieceFillsLimit(payload, w.sessions[id].chunkSize, i);
  }

  /** No event of this chunk handler. */
  ghost predicate NoUploadBy(evs: seq<Event>, t: Thread) {
    forall i :: 0 <= i < |evs| ==>
      !((evs[i].Accept? || evs[i].StoreChunk? || evs[i].Mark? || evs[i].AbortUpload?) && evs[i].t == t)
  }

  lemma UploadStepUntouched(w: World, ev: Event, t: Thread)
    requires NoUploadBy([ev], t) && t in w.uploads
    ensures t in Next(w, ev).uploads && Next(w, ev).uploads[t] == w.uploads[t]
  {
    assert [ev][0] == ev;
  }

  lemma {:induction false} UploadUntouched(w: World, evs: seq<Event>, t: Thread, id: UploadId)
    requires NoUploadBy(evs, t) && t in w.uploads && id in w.sessions
    ensures var after := Exec(w, evs); t in after.uploads && after.uploads[t] == w.uploads[t] && id in after.sessions
    decreases |evs|
  {
    if evs != [] {
      assert forall i :: 0 <= i < |evs[1..]| ==> evs[1..][i] == evs[i + 1];
      UploadStepUntouched(w, evs[0], t);
      SessionStays(w, evs[0], id);
      UploadUntouched(Next(w, evs[0]), evs[1..], t, id);
    }
  }

  /** An accepted chunk that its handler stores and marks is marked, whatever other handlers do
      in between. */
  lemma AcceptedChunkIsMarked(w: World, t: Thread, id: UploadId, tenant: nat, i: nat, body: Bytes, first: seq<Event>,
                              second: seq<Event>)
    requires t !in w.uploads && Acceptable(w, id, tenant, i, body) && NoUploadBy(first, t) && NoUploadBy(second, t)
    ensures var stored := Next(Exec(Next(w, Accept(t, id, tenant, i, body)), first), StoreChunk(t));
            var after := Next(Exec(stored, second), Mark(t));
            id in after.sessions && i in after.sessions[id].uploaded
  {
    var w1 := Next(w, Accept(t, id, tenant, i, body));
    UploadUntouched(w1, first, t, id);
    var w2 := Next(Exec(w1, first), StoreChunk(t));
    UploadUntouched(w2, second, t, id);
  }

  /** A chunk once marked stays marked, and the plan of its session stays what it was. */
  lemma {:induction false} MarkedStays(w: World, evs: seq<Event>, id: UploadId)
    requires id in w.sessions
    ensures var after := Exec(w, evs);
            && id in after.sessions && w.sessions[id].uploaded <= after.sessions[id].uploaded
            && after.sessions[id] == w.sessions[id].(uploaded := after.sessions[id].uploaded)
    decreases |evs|
  {
    if evs != [] {
      SessionStays(w, evs[0], id);
      MarkedStays(Next(w, evs[0]), evs[1..], id);
    }
  }

  lemma SessionStays(w: World, ev: Event, id: UploadId)
    requires id in w.sessions
    ensures var after := Next(w, ev);
            && id in after.sessions && w.sessions[id].uploaded <= after.sessions[id].uploaded
            && after.sessions[id] == w.sessions[id].(uploaded := after.sessions[id].uploaded)
  {
  }

  /** An event of this completion handler. */
  predicate Own(ev: Event, t: Thread) {
    && (ev.Take? || ev.Check? || ev.Fetch? || ev.Clean? || ev.Finish? || ev.AbortCompletion? || ev.Record?
      || ev.Withdraw?)
    && ev.t == t
  }

  /** Among the events of other handlers, this one's are: fetch and clean for each chunk from
      where it is up to n, then finish, then record. */
  ghost predicate Assembles(evs: seq<Event>, t: Thread, fetched: nat, cleaned: nat, n: nat)
    decreases |evs|
  {
    && evs != []
    && if !Own(evs[0], t) then Assembles(evs[1..], t, fetched, cleaned, n)
       else if evs[0].Fetch? then fetched == cleaned < n && Assembles(evs[1..], t, fetched + 1, cleaned, n)
       else if evs[0].Clean? then fetched == cleaned + 1 && Assembles(evs[1..], t, fetched, cleaned + 1, n)
       else evs[0].Finish? && fetched == cleaned == n && Concludes(evs[1..], t)
  }

  ghost predicate Concludes(evs: seq<Event>, t: Thread)
    decreases |evs|
  {
    evs != [] && if Own(evs[0], t) then evs[0].Record? else Concludes(evs[1..], t)
  }

  lemma OthersLeave(w: World, ev: Event, t: Thread)
    requires !Own(ev, t)
    ensures t in Next(w, ev).completions <==> t in w.completions
    ensures t in w.completions ==> Next(w, ev).completions[t] == w.completions[t]
  {
  }

  lemma OthersLeaveRecording(w: World, ev: Event, t: Thread)
    requires !Own(ev, t)
    ensures t in Next(w, ev).recording <==> t in w.recording
    ensures t in w.recording ==> Next(w, ev).recording[t] == w.recording[t]
  {
  }

  lemma {:induction false} RecordedStays(w: World, evs: seq<Event>, id: UploadId)
    requires id in w.recorded
    ensures id in Exec(w, evs).recorded
    decreases |evs|
  {
    if evs != [] {
      RecordedStays(Next(w, evs[0]), evs[1..], id);
    }
  }

  lemma {:induction false} RecordDelivers(w: World, evs: seq<Event>, t: Thread)
    requires t in w.recording && Concludes(evs, t)
    ensures w.recording[t] in Exec(w, evs).recorded
    decreases |evs|
  {
    if Own(evs[0], t) {
      RecordedStays(Next(w, evs[0]), evs[1..], w.recording[t]);
    } else {
      OthersLeaveRecording(w, evs[0], t);
      RecordDelivers(Next(w, evs[0]), evs[1..], t);
    }
  }

  /** The handler is in its assembly loop. */
  ghost predicate AtWork(w: World, t: Thread, id: UploadId, fetched: nat, cleaned: nat, n: nat) {
    && t in w.completions && t !in w.recording
    && w.completions[t].id == id && w.completions[t].assembling
    && |w.completions[t].parts| == fetched && w.completions[t].cleaned == cleaned
    && id in w.sessions && Count(w.sessions[id]) == n
  }

  lemma OtherKeepsWork(w: World, ev: Event, t: Thread, id: UploadId, fetched: nat, cleaned: nat, n: nat)
    requires AtWork(w, t, id, fetched, cleaned, n) && !Own(ev, t)
    ensures AtWork(Next(w, ev), t, id, fetched, cleaned, n)
  {
    OthersLeave(w, ev, t);
    OthersLeaveRecording(w, ev, t);
    SessionStays(w, ev, id);
  }

  lemma FetchAdvances(w: World, t: Thread, id: UploadId, i: nat, n: nat)
    requires Core(w) && AtWork(w, t, id, i, i, n) && i < n
    ensures AtWork(Next(w, Fetch(t)), t, id, i + 1, i, n)
  {
    assert CompletionOk(w, w.completions[t]);
    assert (id, i) in w.blobs;
  }

  lemma CleanAdvances(w: World, t: Thread, deleted: bool, id: UploadId, i: nat, n: nat)
    requires AtWork(w, t, id, i + 1, i, n)
    ensures AtWork(Next(w, Clean(t, deleted)), t, id, i + 1, i + 1, n)
  {
  }

  lemma FinishStores(w: World, t: Thread, id: UploadId, n: nat)
    requires AtWork(w, t, id, n, n, n)
    ensures t in Next(w, Finish(t)).recording && Next(w, Finish(t)).recording[t] == id
  {
  }

  /** One event later, the handler is further on in its loop, or has stored the artifact. */
  lemma WorkAdvances(w: World, evs: seq<Event>, t: Thread, id: UploadId, fetched: nat, cleaned: nat, n: nat)
    returns (f: nat, c: nat)
    requires Core(w) && AtWork(w, t, id, fetched, cleaned, n) && Assembles(evs, t, fetched, cleaned, n)
    ensures Own(evs[0], t) && evs[0].Finish? ==>
      t in Next(w, evs[0]).recording && Next(w, evs[0]).recording[t] == id && Concludes(evs[1..], t)
    ensures !(Own(evs[0], t) && evs[0].Finish?) ==>
      AtWork(Next(w, evs[0]), t, id, f, c, n) && Assembles(evs[1..], t, f, c, n)
  {
    var ev := evs[0];
    f, c := fetched, cleaned;
    if !Own(ev, t) {
      OtherKeepsWork(w, ev, t, id, fetched, cleaned, n);
    } else if ev.Fetch? {
      FetchAdvances(w, t, id, fetched, n);
      f := fetched + 1;
    } else if ev.Clean? {
      CleanAdvances(w, t, ev.deleted, id, cleaned, n);
      c := cleaned + 1;
    } else {
      FinishStores(w, t, id, n);
    }
  }

  /** An assembly that is not aborted stores and records its artifact, whatever other handlers do
      meanwhile. */
  lemma {:induction false} AssemblyDelivers(w: World, evs: seq<Event>, t: Thread, id: UploadId, fetched: nat,
                                            cleaned: nat, n: nat)
    requires Inv(w) && AtWork(w, t, id, fetched, cleaned, n) && Assembles(evs, t, fetched, cleaned, n)
    ensures Inv(Exec(w, evs)) && id in Exec(w, evs).recorded
    decreases |evs|
  {
    StepKeeps(w, evs[0]);
    var f, c := WorkAdvances(w, evs, t, id, fetched, cleaned, n);
    if Own(evs[0], t) && evs[0].Finish? {
      RecordDelivers(Next(w, evs[0]), evs[1..], t);
      RunKeeps(Next(w, evs[0]), evs[1..]);
    } else {
      AssemblyDelivers(Next(w, evs[0]), evs[1..], t, id, f, c, n);
    }
  }

  /** All chunks marked is what the completion's count check means. */
  lemma AllMarkedIff(w: World, id: UploadId)
    requires SessionsOk(w) && id in w.sessions && Chunks(w.sessions[id]) >= 0
    ensures |w.sessions[id].uploaded| == Chunks(w.sessions[id])
            <==> forall i: nat :: i < Chunks(w.sessions[id]) ==> i in w.sessions[id].uploaded
  {
    var n := Count(w.sessions[id]);
    if |w.sessions[id].uploaded| == n {
      AllIndices(w.sessions[id].uploaded, n);
    }
    if forall i: nat :: i < n ==> i in w.sessions[id].uploaded {
      Exactly(w.sessions[id].uploaded, n);
    }
  }

  lemma {:induction false} Exactly(s: set<nat>, n: nat)
    requires forall i: nat :: i < n <==> i in s
    ensures |s| == n
  {
    if n > 0 {
      Exactly(s - {n - 1}, n - 1);
    } else {
      assert s == {};
    }
  }

  /** The handler has taken the session and is about to check it. */
  ghost predicate Claimed(w: World, t: Thread, id: UploadId) {
    && t in w.completions && t !in w.recording
    && w.completions[t].id == id && !w.completions[t].assembling && id in w.sessions
  }

  ghost predicate AllMarked(s: Session) {
    Chunks(s) >= 0 && forall i: nat :: i < Chunks(s) ==> i in s.uploaded
  }

  lemma CheckPasses(w: World, t: Thread, id: UploadId)
    requires Core(w) && Claimed(w, t, id) && AllMarked(w.sessions[id])
    ensures AtWork(Next(w, Check(t)), t, id, 0, 0, Count(w.sessions[id]))
  {
    assert CompletionOk(w, w.completions[t]);
    AllMarkedIff(w, id);
  }

  /** Completing delivers: if every chunk is marked when the completion checks, and the handler
      then fetches, cleans, finishes and records without a failure, the session's artifact is
      stored and recorded, whatever other handlers do in between. */
  lemma CompletionDelivers(start: World, before: seq<Event>, t: Thread, id: UploadId, after: seq<Event>)
    requires IsStart(start) && Claimed(Exec(start, before), t, id) && AllMarked(Exec(start, before).sessions[id])
    requires Assembles(after, t, 0, 0, Count(Exec(start, before).sessions[id]))
    ensures var end := Exec(start, before + [Check(t)] + after);
            Stored(end, id) && id in end.recorded
  {
    StartIsSound(start);
    RunKeeps(start, before);
    var w := Exec(start, before);
    CheckPasses(w, t, id);
    StepKeeps(w, Check(t));
    AssemblyDelivers(Next(w, Check(t)), after, t, id, 0, 0, Count(w.sessions[id]));
    ExecAppend(start, before, Check(t));
    ExecConcat(start, before + [Check(t)], after);
  }

  /** One chunk upload within a run: what happens before its acceptance, between acceptance,
      storing and marking, and afterwards. */
  datatype UploadRun = UploadRun(t: Thread, tenant: nat, body: Bytes,
    before: seq<Event>, first: seq<Event>, second: seq<Event>, rest: seq<Event>)

  /** The run contains this upload of chunk i, with anything but this handler's events in between. */
  ghost predicate Contains(start: World, evs: seq<Event>, id: UploadId, i: nat, u: UploadRun) {
    && evs == u.before + [Accept(u.t, id, u.tenant, i, u.body)] + u.first + [StoreChunk(u.t)] + u.second
              + [Mark(u.t)] + u.rest
    && NoUploadBy(u.first, u.t) && NoUploadBy(u.second, u.t)
    && u.t !in Exec(start, u.before).uploads
    && Acceptable(Exec(start, u.before), id, u.tenant, i, u.body)
  }

  /** A chunk uploaded somewhere in the run is marked at its end. */
  lemma UploadedIsMarked(start: World, evs: seq<Event>, id: UploadId, i: nat, u: UploadRun)
    requires Contains(start, evs, id, i, u)
    ensures var w := Exec(start, evs); id in w.sessions && i in w.sessions[id].uploaded
  {
    var accept := Accept(u.t, id, u.tenant, i, u.body);
    var w := Exec(start, u.before);
    AcceptedChunkIsMarked(w, u.t, id, u.tenant, i, u.body, u.first, u.second);
    ExecAppend(start, u.before, accept);
    ExecConcat(start, u.before + [accept], u.first);
    ExecAppend(start, u.before + [accept] + u.first, StoreChunk(u.t));
    ExecConcat(start, u.before + [accept] + u.first + [StoreChunk(u.t)], u.second);
    ExecAppend(start, u.before + [accept] + u.first + [StoreChunk(u.t)] + u.second, Mark(u.t));
    var marked := u.before + [accept] + u.first + [StoreChunk(u.t)] + u.second + [Mark(u.t)];
    ExecConcat(start, marked, u.rest);
    MarkedStays(Exec(start, marked), u.rest, id);
  }

  /** The other half: what is stored for a session is the payload, if only its pieces were
      uploaded, in any order, with any repeats and interleaved with anything else. */
  lemma StoredIsPayload(start: World, evs: seq<Event>, k: nat, payload: Bytes)
    requires IsStart(start) && k < |Exec(start, evs).artifacts|
    requires OnlyPieces(Exec(start, evs), Exec(start, evs).artifacts[k].id, payload)
    ensures Flatten(Exec(start, evs).artifacts[k].parts) == payload
  {
    StoredArtifactIsComplete(start, evs, k);
    var w := Exec(start, evs);
    var a := w.artifacts[k];
    var c := w.sessions[a.id].chunkSize;
    AllPiecesJoin(payload, c);
    var n := TotalChunks(|payload|, c);
    assert a.parts == Pieces(payload, c, n) by {
      forall i | 0 <= i < n
        ensures a.parts[i] == Piece(payload, c, i)
      {
        assert (a.id, i, a.parts[i]) in w.accepted;
      }
    }
  }

  /** The session announced the payload, and every body accepted for it is the payload's piece. */
  ghost predicate OnlyPieces(w: World, id: UploadId, payload: Bytes) {
    && id in w.sessions && w.sessions[id].chunkSize > 0 && |payload| == w.sessions[id].totalSize > 0
    && forall a :: a in w.accepted && a.0 == id ==> a.2 == Piece(payload, w.sessions[id].chunkSize, a.1)
  }

  /** Together, over one run: the pieces of a payload are uploaded, in any order, with any repeats
      and interleaved with anything; then a completion that took the session checks, and goes
      through. At the end exactly that payload is stored and recorded for the session. */
  lemma PayloadReassembled(start: World, before: seq<Event>, uploads: seq<UploadRun>, t: Thread, id: UploadId,
                           after: seq<Event>, payload: Bytes)
    requires IsStart(start) && Claimed(Exec(start, before), t, id)
    requires |uploads| == Chunks(Exec(start, before).sessions[id])
    requires forall i :: 0 <= i < |uploads| ==> Contains(start, before, id, i, uploads[i])
    requires Assembles(after, t, 0, 0, Count(Exec(start, before).sessions[id]))
    requires OnlyPieces(Exec(start, before + [Check(t)] + after), id, payload)
    ensures var end := Exec(start, before + [Check(t)] + after);
            && id in end.recorded
            && exists k :: 0 <= k < |end.artifacts| && end.artifacts[k].id == id
                           && Flatten(end.artifacts[k].parts) == payload
  {
    forall i: nat | i < |uploads| ensures i in Exec(start, before).sessions[id].uploaded {
      UploadedIsMarked(start, before, id, i, uploads[i]);
    }
    CompletionDelivers(start, before, t, id, after);
    var end := Exec(start, before + [Check(t)] + after);
    var k :| 0 <= k < |end.artifacts| && end.artifacts[k].id == id;
    StoredIsPayload(start, before + [Check(t)] + after, k, payload);
  }

  // ---------- Negative chunk sizes ----------

  /** A fresh session can be completed at once, to an empty artifact, exactly if it announces no
      chunks; whatever its size. */
  lemma EmptyCompletionIff(w: World, t: Thread, id: UploadId)
    requires t !in w.completions && t !in w.recording && id in w.live && id in w.sessions
    requires w.sessions[id].uploaded == {} && w.sessions[id].totalSize > 0 && w.sessions[id].chunkSize != 0
    ensures var s := w.sessions[id];
            var after := Exec(w, [Take(t, id, s.tenant), Check(t)] + [Finish(t)]);
            && (after.artifacts == w.artifacts + [Artifact(id, [])]
                <==> s.chunkSize < 0 && s.totalSize > 1 && s.totalSize - 1 < -2 * s.chunkSize)
            && (after.artifacts == w.artifacts + [Artifact(id, [])] || after.artifacts == w.artifacts)
  {
    var s := w.sessions[id];
    NoChunksIff(s.totalSize, s.chunkSize);
    TwoEvents(w, Take(t, id, s.tenant), Check(t));
    ExecAppend(w, [Take(t, id, s.tenant), Check(t)], Finish(t));
    assert |s.uploaded| == 0;
  }

  lemma StoredHasRoom(w: World, id: UploadId)
    requires Inv(w) && Stored(w, id)
    ensures id in w.sessions && Chunks(w.sessions[id]) >= 0
            && (Chunks(w.sessions[id]) > 0 ==> LimitOf(w.sessions[id], 0) >= 0)
  {
    var k :| 0 <= k < |w.artifacts| && w.artifacts[k].id == id;
    assert ArtifactOk(w, w.artifacts[k]);
    if Chunks(w.sessions[id]) > 0 {
      assert (id, 0, w.artifacts[k].parts[0]) in w.accepted;
    }
  }

  /** A session with a negative number of chunks, or one byte in a chunk of size -1, is never
      completed, in any run. */
  lemma NeverCompleted(start: World, evs: seq<Event>, id: UploadId)
    requires IsStart(start) && id in Exec(start, evs).sessions
    requires var s := Exec(start, evs).sessions[id];
             s.chunkSize < 0 && (s.totalSize - 1 >= -2 * s.chunkSize || (s.totalSize == 1 && s.chunkSize == -1))
    ensures !Stored(Exec(start, evs), id)
  {
    StartIsSound(start);
    RunKeeps(start, evs);
    var w := Exec(start, evs);
    NegativeChunks(w.sessions[id].totalSize, w.sessions[id].chunkSize);
    if Stored(w, id) {
      StoredHasRoom(w, id);
    }
  }

  // ---------- One completion per session ----------

  lemma {:induction false} TakenStays(w: World, evs: seq<Event>, id: UploadId)
    requires id in w.taken
    ensures id in Exec(w, evs).taken
    decreases |evs|
  {
    if evs != [] {
      TakenStays(Next(w, evs[0]), evs[1..], id);
    }
  }

  /** After one completion request has won a session, every later one finds nothing, whatever
      happens in between. */
  lemma OnlyOneCompletionWins(w: World, id: UploadId, evs: seq<Event>, t: Thread, tenant: nat)
    requires Inv(w) && id in w.taken
    ensures var later := Exec(w, evs);
            id !in later.live && Next(later, Take(t, id, tenant)) == later
  {
    RunKeeps(w, evs);
    TakenStays(w, evs, id);
  }

  /** The assembly loop never misses a chunk: in every reachable state, what it is about to
      fetch is in the store, and is a body accepted for that index. */
  lemma FetchFindsItsChunk(start: World, evs: seq<Event>, t: Thread)
    requires IsStart(start) && Fetching(Exec(start, evs), t)
    ensures var w := Exec(start, evs);
            var c := w.completions[t];
            (c.id, |c.parts|) in w.blobs && (c.id, |c.parts|, w.blobs[(c.id, |c.parts|)]) in w.accepted
  {
    StartIsSound(start);
    RunKeeps(start, evs);
    var w := Exec(start, evs);
    assert CompletionOk(w, w.completions[t]);
    assert (w.completions[t].id, |w.completions[t].parts|) in w.blobs;
  }

  // ---------- The handlers ----------

  datatype Response = Created | Ok | BadRequest | NotFound | Gone | Forbidden | ServerError

  /** What fails during a completion: chunk downloads, chunk deletions, storing the artifact,
      writing its record, deleting it again. */
  datatype CompletionFaults = CompletionFaults(download: nat -> bool, delete: nat -> bool, store: bool, record: bool,
    withdraw: bool)

  function RecordEvent(t: Thread, faults: CompletionFaults): Event {
    if faults.record then Withdraw(t, !faults.withdraw) else Record(t)
  }

  class UploadServer {
    /** The session table: every session ever created, and the ids the table still lists. */
    var sessions: map<UploadId, Session>
    var uploadSessions: set<UploadId>
    var blobs: map<(UploadId, nat), Bytes>
    var stored: seq<(UploadId, Bytes)>
    /** The uploads that have an artifact record. */
    var records: set<UploadId>
    /** The state of the concurrent machine, of which the fields above are a part. */
    ghost var world: World

    /** The real fields show the machine's state. */
    ghost predicate Mirrors()
      reads this
    {
      ShowsTables() && ShowsArtifacts()
    }

    ghost predicate ShowsTables()
      reads this
    {
      sessions == world.sessions && uploadSessions == world.live && blobs == world.blobs && records == world.recorded
    }

    ghost predicate ShowsArtifacts()
      reads this
    {
      && |stored| == |world.artifacts|
      && forall k :: 0 <= k < |stored| ==> stored[k] == (world.artifacts[k].id, Flatten(world.artifacts[k].parts))
    }

    ghost predicate Valid()
      reads this
    {
      Mirrors() && Inv(world)
    }

    constructor ()
      ensures Valid() && IsStart(world)
    {
      sessions, uploadSessions, blobs, stored, records := map[], {}, map[], [], {};
      world := World(map[], {}, map[], map[], map[], map[], [], {}, {}, {}, {});
      new;
      StartIsSound(world);
    }

    method HandleInitiate(id: UploadId, tenant: nat, totalSize: int, requestedChunkSize: int)
      returns (r: Response, chunkSize: int, totalChunks: int)
      requires Valid() && id !in sessions
      modifies this
      ensures Valid() && world == Next(old(world), Initiate(id, tenant, totalSize, requestedChunkSize))
      ensures r == if totalSize > 0 then Created else BadRequest
      ensures uploadSessions == if totalSize > 0 then old(uploadSessions) + {id} else old(uploadSessions)
      ensures blobs == old(blobs) && stored == old(stored) && (totalSize <= 0 ==> sessions == old(sessions))
      ensures r == Created ==> chunkSize != 0 && totalChunks == TotalChunks(totalSize, chunkSize)
                               && sessions == old(sessions)[id := Session(tenant, totalSize, chunkSize, {})]
      ensures r == Created && requestedChunkSize >= 0
              ==> chunkSize > 0 && SumLimits(totalSize, chunkSize, ChunkCount(totalSize, chunkSize)) == totalSize
    {
      StepKeeps(world, Initiate(id, tenant, totalSize, requestedChunkSize));
      world := Next(world, Initiate(id, tenant, totalSize, requestedChunkSize));
      if totalSize <= 0 { return BadRequest, 0, 0; }
      chunkSize := requestedChunkSize;
      if chunkSize == 0 { chunkSize := DEFAULT_CHUNK_SIZE; }
      if chunkSize > MAX_CHUNK_SIZE { chunkSize := MAX_CHUNK_SIZE; }
      totalChunks := GoDiv(totalSize + chunkSize - 1, chunkSize);
      sessions := sessions[id := Session(tenant, totalSize, chunkSize, {})];
      uploadSessions := uploadSessions + {id};
      LimitsSumToTotal(totalSize, chunkSize);
      return Created, chunkSize, totalChunks;
    }

    /** One chunk upload, uninterrupted. `script` are the machine events it amounts to. */
    method HandleUploadChunk(t: Thread, id: UploadId, tenant: nat, chunk: nat, body: Bytes, expired: bool,
                             storeFails: bool)
      returns (r: Response, ghost script: seq<Event>)
      requires Valid() && t !in world.uploads
      modifies this
      ensures Valid() && world == Exec(old(world), script)
      ensures r == Ok <==> !expired && !storeFails && Acceptable(old(world), id, tenant, chunk, body)
      ensures r == Ok ==> script == [Accept(t, id, tenant, chunk, body), StoreChunk(t), Mark(t)]
      ensures r == Ok ==> blobs == old(blobs)[(id, chunk) := body]
                          && sessions == old(sessions)[id :=
                               old(sessions)[id].(uploaded := old(sessions)[id].uploaded + {chunk})]
      ensures r == Gone ==> script == [Expire(id)] && uploadSessions == old(uploadSessions) - {id}
      ensures r == BadRequest || r == Forbidden || r == NotFound ==> script == []
      ensures r != Ok ==> sessions == old(sessions) && blobs == old(blobs) && stored == old(stored)
      ensures r != Gone ==> uploadSessions == old(uploadSessions)
      ensures r == NotFound <==> id !in old(uploadSessions)
      ensures r == Gone <==> id in old(uploadSessions) && expired
      ensures id in old(uploadSessions) && !expired ==>
        var session := old(sessions)[id];
        && (chunk >= TotalChunks(session.totalSize, session.chunkSize) ==> r == BadRequest)
        && (chunk < TotalChunks(session.totalSize, session.chunkSize) ==>
             && (r == Forbidden <==> tenant != session.tenant)
             && (r == BadRequest <==>
                  tenant == session.tenant && |body| > Limit(session.totalSize, session.chunkSize, chunk)))
    {
      ghost var w := world;
      ListedSession(w, id);
      r, script := UploadChunk(t, id, tenant, chunk, body, expired, storeFails);
      RunKeeps(w, script);
    }

    /** The body of the chunk handler. */
    method UploadChunk(t: Thread, id: UploadId, tenant: nat, chunk: nat, body: Bytes, expired: bool, storeFails: bool)
      returns (r: Response, ghost script: seq<Event>)
      requires Mirrors() && t !in world.uploads
      requires id in uploadSessions ==> id in sessions && sessions[id].chunkSize != 0
      modifies this
      ensures Mirrors() && world == Exec(old(world), script)
      ensures r == Ok <==> !expired && !storeFails && Acceptable(old(world), id, tenant, chunk, body)
      ensures r == Ok ==> script == [Accept(t, id, tenant, chunk, body), StoreChunk(t), Mark(t)]
      ensures r == Ok ==> blobs == old(blobs)[(id, chunk) := body]
                          && sessions == old(sessions)[id :=
                               old(sessions)[id].(uploaded := old(sessions)[id].uploaded + {chunk})]
      ensures r == Gone ==> script == [Expire(id)] && uploadSessions == old(uploadSessions) - {id}
      ensures r == BadRequest || r == Forbidden || r == NotFound ==> script == []
      ensures r != Ok ==> sessions == old(sessions) && blobs == old(blobs) && stored == old(stored)
      ensures r != Gone ==> uploadSessions == old(uploadSessions)
      ensures r == NotFound <==> id !in old(uploadSessions)
      ensures r == Gone <==> id in old(uploadSessions) && expired
      ensures id in old(uploadSessions) && !expired ==>
        var session := old(sessions)[id];
        && (chunk >= TotalChunks(session.totalSize, session.chunkSize) ==> r == BadRequest)
        && (chunk < TotalChunks(session.totalSize, session.chunkSize) ==>
             && (r == Forbidden <==> tenant != session.tenant)
             && (r == BadRequest <==>
                  tenant == session.tenant && |body| > Limit(session.totalSize, session.chunkSize, chunk)))
    {
      script := [];
      if id !in uploadSessions { return NotFound, script; }
      var session := sessions[id];
      if expired {
        script := [Expire(id)];
        ExecAppend(world, [], Expire(id));
        world := Next(world, Expire(id));
        uploadSessions := uploadSessions - {id};
        return Gone, script;
      }
      if chunk >= TotalChunks(session.totalSize, session.chunkSize) { return BadRequest, script; }
      if tenant != session.tenant { return Forbidden, script; }
      var maxChunkSize := session.chunkSize;
      if chunk == GoDiv(session.totalSize, session.chunkSize) {
        maxChunkSize := GoMod(session.totalSize, session.chunkSize);
        if maxChunkSize == 0 { maxChunkSize := session.chunkSize; }
      }
      if |body| > maxChunkSize { return BadRequest, script; }
      r, script := StoreAccepted(t, id, tenant, chunk, body, storeFails);
    }

    /** The effects of a chunk handler past its checks: store the blob, then mark the chunk. */
    method StoreAccepted(t: Thread, id: UploadId, ghost tenant: nat, chunk: nat, body: Bytes, storeFails: bool)
      returns (r: Response, ghost script: seq<Event>)
      requires Mirrors() && t !in world.uploads && Acceptable(world, id, tenant, chunk, body)
      modifies this
      ensures Mirrors() && world == Exec(old(world), script)
      ensures r == if storeFails then ServerError else Ok
      ensures r == Ok ==> script == [Accept(t, id, tenant, chunk, body), StoreChunk(t), Mark(t)]
      ensures r == Ok ==> blobs == old(blobs)[(id, chunk) := body]
                          && sessions == old(sessions)[id :=
                               old(sessions)[id].(uploaded := old(sessions)[id].uploaded + {chunk})]
      ensures r != Ok ==> sessions == old(sessions) && blobs == old(blobs)
      ensures stored == old(stored) && uploadSessions == old(uploadSessions)
    {
      var session := sessions[id];
      UploadScript(world, t, id, tenant, chunk, body);
      world := Next(world, Accept(t, id, tenant, chunk, body));
      if storeFails {
        world := Next(world, AbortUpload(t));
        return ServerError, [Accept(t, id, tenant, chunk, body), AbortUpload(t)];
      }
      world := Next(world, StoreChunk(t));
      blobs := blobs[(id, chunk) := body];
      world := Next(world, Mark(t));
      sessions := sessions[id := session.(uploaded := session.uploaded + {chunk})];
      return Ok, [Accept(t, id, tenant, chunk, body), StoreChunk(t), Mark(t)];
    }

    /** One completion request, uninterrupted. */
    method HandleComplete(t: Thread, id: UploadId, tenant: nat, faults: CompletionFaults)
      returns (r: Response, ghost parts: seq<Bytes>, ghost script: seq<Event>)
      requires Valid() && t !in world.completions && t !in world.recording
      modifies this
      ensures Valid()
      ensures world == Exec(old(world), script)
      ensures id !in uploadSessions
      ensures r == NotFound <==> id !in old(uploadSessions)
      ensures r == Forbidden <==> id in old(uploadSessions) && tenant != old(sessions)[id].tenant
      ensures r == BadRequest <==> id in old(uploadSessions) && tenant == old(sessions)[id].tenant
                                   && |old(sessions)[id].uploaded| != Chunks(old(sessions)[id])
      ensures r in {Created, NotFound, Forbidden, BadRequest, ServerError}
      ensures r == Created || r == ServerError ==>
        (r == Created
         <==> !faults.store && !faults.record
              && forall i: nat :: i < Count(old(sessions)[id]) ==> !faults.download(i))
      ensures r != Created && r != ServerError ==> blobs == old(blobs)
      ensures OnlyCleaned(old(blobs), blobs, id)
      ensures r == Created ==> blobs == CleanedUp(old(blobs), id, Count(old(sessions)[id]), faults.delete)
      ensures r == Created ==> records == old(records) + {id}
                               && stored == old(stored) + [(id, Flatten(parts))]
                                 && CopiesOf(old(blobs), id, parts, Count(old(sessions)[id]))
      ensures r != Created ==> records == old(records)
                               && (stored == old(stored) || (faults.record && faults.withdraw
                                 && stored == old(stored) + [(id, Flatten(parts))]))
    {
      ghost var w := world;
      ListedSession(w, id);
      AssemblyReady(w, id);
      r, parts, script := Complete(t, id, tenant, faults);
      RunKeeps(w, script);
    }

    /** The body of the completion handler. */
    method Complete(t: Thread, id: UploadId, tenant: nat, faults: CompletionFaults)
      returns (r: Response, ghost parts: seq<Bytes>, ghost script: seq<Event>)
      requires Mirrors() && t !in world.completions && t !in world.recording
      requires id in uploadSessions ==> id in sessions && sessions[id].chunkSize != 0 && NotStored(world, id)
      requires id in uploadSessions && |sessions[id].uploaded| == Chunks(sessions[id]) ==>
        forall i: nat :: i < Count(sessions[id]) ==> (id, i) in blobs
      modifies this
      ensures Mirrors()
      ensures world == Exec(old(world), script)
      ensures id !in uploadSessions
      ensures r == NotFound <==> id !in old(uploadSessions)
      ensures r == Forbidden <==> id in old(uploadSessions) && tenant != old(sessions)[id].tenant
      ensures r == BadRequest <==> id in old(uploadSessions) && tenant == old(sessions)[id].tenant
                                   && |old(sessions)[id].uploaded| != Chunks(old(sessions)[id])
      ensures r in {Created, NotFound, Forbidden, BadRequest, ServerError}
      ensures r == Created || r == ServerError ==>
        (r == Created
         <==> !faults.store && !faults.record
              && forall i: nat :: i < Count(old(sessions)[id]) ==> !faults.download(i))
      ensures r != Created && r != ServerError ==> blobs == old(blobs)
      ensures OnlyCleaned(old(blobs), blobs, id)
      ensures r == Created ==> blobs == CleanedUp(old(blobs), id, Count(old(sessions)[id]), faults.delete)
      ensures r == Created ==> records == old(records) + {id}
                               && stored == old(stored) + [(id, Flatten(parts))]
                                 && CopiesOf(old(blobs), id, parts, Count(old(sessions)[id]))
      ensures r != Created ==> records == old(records)
                               && (stored == old(stored) || (faults.record && faults.withdraw
                                 && stored == old(stored) + [(id, Flatten(parts))]))
    {
      parts := [];
      r, script := Claim(t, id, tenant);
      if r != Ok { return r, parts, script; }
      var ok, assembled;
      ghost var more, last;
      ok, assembled, parts, more := Assemble(t, id, sessions[id], faults);
      ExecConcat(old(world), script, more);
      script := script + more;
      if !ok { return ServerError, parts, script; }
      r, last := StoreAssembled(t, id, assembled, parts, faults);
      ExecConcat(old(world), script, last);
      script := script + last;
    }

    /** Takes the session out of the table and checks that its chunks are all there; `Ok` means
        that the assembly can start. */
    method Claim(t: Thread, id: UploadId, tenant: nat) returns (r: Response, ghost script: seq<Event>)
      requires Mirrors() && t !in world.completions && t !in world.recording
      requires id in uploadSessions ==> id in sessions && sessions[id].chunkSize != 0
      modifies this`uploadSessions, this`world
      ensures Mirrors() && world == Exec(old(world), script)
      ensures uploadSessions == old(uploadSessions) - {id}
      ensures world.artifacts == old(world.artifacts) && world.recording == old(world.recording)
      ensures r == if id !in old(uploadSessions) then NotFound
                   else if tenant != sessions[id].tenant then Forbidden
                   else if |sessions[id].uploaded| != Chunks(sessions[id]) then BadRequest else Ok
      ensures r == Ok ==> t in world.completions && world.completions[t] == Completion(id, true, [], 0)
    {
      script := [];
      if id !in uploadSessions { return NotFound, script; }
      var session := sessions[id];
      uploadSessions := uploadSessions - {id};
      CompletionScript(world, t, id, tenant);
      script := [Take(t, id, tenant)];
      world := Next(world, Take(t, id, tenant));
      if tenant != session.tenant { return Forbidden, script; }
      script := script + [Check(t)];
      world := Next(world, Check(t));
      if |session.uploaded| != TotalChunks(session.totalSize, session.chunkSize) { return BadRequest, script; }
      return Ok, script;
    }

    /** The assembly loop: fetch each chunk in order, append it, delete it. */
    method Assemble(t: Thread, id: UploadId, session: Session, faults: CompletionFaults)
      returns (ok: bool, assembled: Bytes, ghost parts: seq<Bytes>, ghost script: seq<Event>)
      requires ShowsTables() && t in world.completions && world.completions[t] == Completion(id, true, [], 0)
      requires id in sessions && sessions[id] == session && session.chunkSize != 0
      requires forall i: nat :: i < Count(session) ==> (id, i) in blobs
      modifies this`blobs, this`world
      ensures ShowsTables() && world == Exec(old(world), script)
      ensures world.artifacts == old(world.artifacts) && world.recording == old(world.recording)
      ensures ok <==> forall i: nat :: i < Count(session) ==> !faults.download(i)
      ensures OnlyCleaned(old(blobs), blobs, id)
      ensures ok ==> blobs == CleanedUp(old(blobs), id, Count(session), faults.delete)
      ensures ok ==> assembled == Flatten(parts) && CopiesOf(old(blobs), id, parts, Count(session))
                     && t in world.completions && world.completions[t] == Completion(id, true, parts, Count(session))
    {
      ghost var first, n := blobs, Count(session);
      var i;
      ok, i, assembled := AssembleParts(id, TotalChunks(session.totalSize, session.chunkSize), faults, n);
      parts := PartsOf(first, id, i);
      script := Arrive(t, id, i, faults.delete, ok);
    }

    /** The loop itself. */
    method AssembleParts(id: UploadId, totalChunks: int, faults: CompletionFaults, ghost n: nat)
      returns (ok: bool, i: nat, assembled: Bytes)
      requires n == (if totalChunks < 0 then 0 else totalChunks) && forall i: nat :: i < n ==> (id, i) in blobs
      modifies this`blobs
      ensures i <= n && (ok <==> i == n) && (!ok ==> faults.download(i))
      ensures forall j: nat :: j < i ==> !faults.download(j)
      ensures assembled == Flatten(PartsOf(old(blobs), id, i)) && blobs == CleanedUp(old(blobs), id, i, faults.delete)
    {
      NothingYet(blobs, id, faults.delete);
      ghost var first := blobs;
      assembled, i := [], 0;
      while i < totalChunks
        invariant i <= n && assembled == Flatten(PartsOf(first, id, i))
        invariant blobs == CleanedUp(first, id, i, faults.delete)
        invariant forall j: nat :: j < i ==> !faults.download(j)
        decreases n - i
      {
        if faults.download(i) { return false, i, assembled; }
        assembled := AppendChunk(id, i, assembled, faults.delete, first);
        i := i + 1;
      }
      return true, i, assembled;
    }

    /** One turn of it: append the chunk, then delete it. */
    method AppendChunk(id: UploadId, i: nat, assembled: Bytes, keeps: nat -> bool,
                       ghost first: map<(UploadId, nat), Bytes>)
      returns (longer: Bytes)
      requires (id, i) in first && blobs == CleanedUp(first, id, i, keeps)
      requires assembled == Flatten(PartsOf(first, id, i))
      modifies this`blobs
      ensures blobs == CleanedUp(first, id, i + 1, keeps) && longer == Flatten(PartsOf(first, id, i + 1))
    {
      OneMorePart(first, id, i, keeps);
      longer := assembled + blobs[(id, i)];
      if !keeps(i) { blobs := blobs - {(id, i)}; }
    }

    /** The machine follows the loop, and gives up where it did. */
    ghost method Arrive(t: Thread, id: UploadId, n: nat, keeps: nat -> bool, ok: bool) returns (script: seq<Event>)
      requires t in world.completions && world.completions[t] == Completion(id, true, [], 0)
      requires id in world.sessions && n <= Count(world.sessions[id])
      requires forall i: nat :: i < n ==> (id, i) in world.blobs
      modifies this`world
      ensures world == Exec(old(world), script)
      ensures var w := AssemblyView(old(world), t, id, n, keeps);
              world == if ok then w else Next(w, AbortCompletion(t))
    {
      AssemblyState(world, t, id, n, keeps);
      script := AssemblyScript(t, n, keeps);
      if !ok {
        ExecAppend(world, script, AbortCompletion(t));
        script := script + [AbortCompletion(t)];
      }
      world := Exec(world, script);
    }

    /** The end of a completion: store the artifact, then see to its record. */
    method StoreAssembled(t: Thread, id: UploadId, assembled: Bytes, ghost parts: seq<Bytes>, faults: CompletionFaults)
      returns (r: Response, ghost script: seq<Event>)
      requires Mirrors() && Finishing(world, t) && assembled == Flatten(parts)
      requires world.completions[t].id == id && world.completions[t].parts == parts && NotStored(world, id)
      modifies this`stored, this`records, this`world
      ensures Mirrors() && world == Exec(old(world), script)
      ensures r == if faults.store || faults.record then ServerError else Created
      ensures records == if r == Created then old(records) + {id} else old(records)
      ensures stored == if faults.store || (faults.record && !faults.withdraw) then old(stored)
              else old(stored) + [(id, Flatten(parts))]
    {
      if faults.store {
        TwoEvents(world, AbortCompletion(t), AbortCompletion(t));
        world := Next(world, AbortCompletion(t));
        return ServerError, [AbortCompletion(t)];
      }
      WithoutLast(world.artifacts, Artifact(id, parts));
      TwoEvents(world, Finish(t), RecordEvent(t, faults));
      world := Next(world, Finish(t));
      stored := stored + [(id, assembled)];
      r := RecordArtifact(t, id, faults);
      script := [Finish(t), RecordEvent(t, faults)];
    }

    /** Writes the record of the artifact just stored, or deletes the artifact again. */
    method RecordArtifact(t: Thread, id: UploadId, faults: CompletionFaults) returns (r: Response)
      requires Mirrors() && stored != [] && t in world.recording && world.recording[t] == id
      requires Without(world.artifacts, id) == world.artifacts[..|world.artifacts| - 1]
      modifies this`stored, this`records, this`world
      ensures Mirrors() && world == Next(old(world), RecordEvent(t, faults))
      ensures r == if faults.record then ServerError else Created
      ensures records == if faults.record then old(records) else old(records) + {id}
      ensures stored == if faults.record && !faults.withdraw then old(stored)[..|old(stored)| - 1] else old(stored)
    {
      world := Next(world, RecordEvent(t, faults));
      if faults.record {
        if !faults.withdraw { stored := stored[..|stored| - 1]; }
        return ServerError;
      }
      records := records + {id};
      return Created;
    }
  }

  ghost predicate NotStored(w: World, id: UploadId) {
    forall k :: 0 <= k < |w.artifacts| ==> w.artifacts[k].id != id
  }

  lemma {:induction false} WithoutNone(artifacts: seq<Artifact>, id: UploadId)
    requires forall k :: 0 <= k < |artifacts| ==> artifacts[k].id != id
    ensures Without(artifacts, id) == artifacts
  {
    if artifacts != [] {
      WithoutNone(artifacts[..|artifacts| - 1], id);
    }
  }

  /** Deleting what was just stored. */
  lemma WithoutLast(artifacts: seq<Artifact>, a: Artifact)
    requires forall k :: 0 <= k < |artifacts| ==> artifacts[k].id != a.id
    ensures Without(artifacts + [a], a.id) == artifacts
  {
    assert (artifacts + [a])[..|artifacts|] == artifacts;
    WithoutNone(artifacts, a.id);
  }

  /** `parts` are what the store holds for the first n chunks. */
  ghost predicate CopiesOf(blobs: map<(UploadId, nat), Bytes>, id: UploadId, parts: seq<Bytes>, n: nat) {
    |parts| == n && forall i :: 0 <= i < n ==> (id, i) in blobs && parts[i] == blobs[(id, i)]
  }

  /** The store after the first n chunks were cleaned up: of those, only the ones whose deletion
      fails are left. */
  function CleanedUp(blobs: map<(UploadId, nat), Bytes>, id: UploadId, n: nat, keeps: nat -> bool)
    : (r: map<(UploadId, nat), Bytes>)
    ensures forall key :: key in r <==> key in blobs && (key.0 == id && key.1 < n ==> keeps(key.1))
    ensures forall key :: key in r ==> r[key] == blobs[key]
  {
    map key | key in blobs && (key.0 == id && key.1 < n ==> keeps(key.1)) :: blobs[key]
  }

  /** Nothing but chunks of this session have gone, and nothing has changed. */
  ghost predicate OnlyCleaned(was: map<(UploadId, nat), Bytes>, blobs: map<(UploadId, nat), Bytes>, id: UploadId) {
    && (forall key :: key in blobs ==> key in was && blobs[key] == was[key])
    && (forall key :: key in was && key.0 != id ==> key in blobs)
  }

  /** What the store holds for the first n chunks. */
  function PartsOf(blobs: map<(UploadId, nat), Bytes>, id: UploadId, n: nat): (r: seq<Bytes>)
    ensures |r| == n && forall i :: 0 <= i < n && (id, i) in blobs ==> r[i] == blobs[(id, i)]
  {
    seq(n, i requires 0 <= i < n => if (id, i) in blobs then blobs[(id, i)] else [])
  }

  lemma OneMorePart(blobs: map<(UploadId, nat), Bytes>, id: UploadId, i: nat, keeps: nat -> bool)
    requires (id, i) in blobs
    ensures var was := CleanedUp(blobs, id, i, keeps);
            && (id, i) in was && was[(id, i)] == blobs[(id, i)]
            && CleanedUp(blobs, id, i + 1, keeps) == if keeps(i) then was else was - {(id, i)}
    ensures PartsOf(blobs, id, i + 1) == PartsOf(blobs, id, i) + [blobs[(id, i)]]
    ensures Flatten(PartsOf(blobs, id, i + 1)) == Flatten(PartsOf(blobs, id, i)) + blobs[(id, i)]
  {
    assert PartsOf(blobs, id, i + 1) == PartsOf(blobs, id, i) + [blobs[(id, i)]];
    FlattenSnoc(PartsOf(blobs, id, i), blobs[(id, i)]);
  }

  /** The events of n turns of the assembly loop. */
  function AssemblyScript(t: Thread, n: nat, keeps: nat -> bool): seq<Event> {
    if n == 0 then [] else AssemblyScript(t, n - 1, keeps) + [Fetch(t), Clean(t, !keeps(n - 1))]
  }

  /** The world after them. */
  function AssemblyView(w: World, t: Thread, id: UploadId, n: nat, keeps: nat -> bool): World {
    w.(completions := w.completions[t := Completion(id, true, PartsOf(w.blobs, id, n), n)],
       blobs := CleanedUp(w.blobs, id, n, keeps))
  }

  lemma {:induction false} AssemblyState(w: World, t: Thread, id: UploadId, n: nat, keeps: nat -> bool)
    requires t in w.completions && w.completions[t] == Completion(id, true, [], 0)
    requires id in w.sessions && n <= Count(w.sessions[id]) && forall i: nat :: i < n ==> (id, i) in w.blobs
    ensures Exec(w, AssemblyScript(t, n, keeps)) == AssemblyView(w, t, id, n, keeps)
  {
    if n == 0 {
      NothingYet(w.blobs, id, keeps);
    } else {
      AssemblyState(w, t, id, n - 1, keeps);
      ExecConcat(w, AssemblyScript(t, n - 1, keeps), [Fetch(t), Clean(t, !keeps(n - 1))]);
      AssemblyTurn(w, t, id, n - 1, keeps);
    }
  }

  lemma NothingYet(blobs: map<(UploadId, nat), Bytes>, id: UploadId, keeps: nat -> bool)
    ensures CleanedUp(blobs, id, 0, keeps) == blobs
    ensures PartsOf(blobs, id, 0) == [] && Flatten(PartsOf(blobs, id, 0)) == []
  {
  }

  lemma AssemblyTurn(w: World, t: Thread, id: UploadId, i: nat, keeps: nat -> bool)
    requires id in w.sessions && i < Count(w.sessions[id]) && (id, i) in w.blobs
    ensures Exec(AssemblyView(w, t, id, i, keeps), [Fetch(t), Clean(t, !keeps(i))])
      == AssemblyView(w, t, id, i + 1, keeps)
  {
    var was := AssemblyView(w, t, id, i, keeps);
    var fetched := Completion(id, true, PartsOf(w.blobs, id, i + 1), i);
    var mid := w.(completions := w.completions[t := fetched], blobs := was.blobs);
    TwoEvents(was, Fetch(t), Clean(t, !keeps(i)));
    OneMorePart(w.blobs, id, i, keeps);
    FetchedState(was, t, id, PartsOf(w.blobs, id, i), i);
    PutTwice(w.completions, t, Completion(id, true, PartsOf(w.blobs, id, i), i), fetched);
    assert Next(was, Fetch(t)) == mid;
    CleanedState(mid, t, id, fetched.parts, i, !keeps(i));
    PutTwice(w.completions, t, fetched, fetched.(cleaned := i + 1));
  }

  lemma PutTwice(m: map<Thread, Completion>, t: Thread, a: Completion, b: Completion)
    ensures m[t := a][t := b] == m[t := b]
  {
  }

  lemma FetchedState(w: World, t: Thread, id: UploadId, parts: seq<Bytes>, i: nat)
    requires t in w.completions && w.completions[t] == Completion(id, true, parts, i) && |parts| == i
    requires id in w.sessions && i < Count(w.sessions[id]) && (id, i) in w.blobs
    ensures Next(w, Fetch(t))
      == w.(completions := w.completions[t := Completion(id, true, parts + [w.blobs[(id, i)]], i)])
  {
  }

  lemma CleanedState(w: World, t: Thread, id: UploadId, parts: seq<Bytes>, i: nat, deleted: bool)
    requires t in w.completions && w.completions[t] == Completion(id, true, parts, i) && |parts| == i + 1
    ensures Next(w, Clean(t, deleted))
      == w.(completions := w.completions[t := Completion(id, true, parts, i + 1)],
            blobs := if deleted then w.blobs - {(id, i)} else w.blobs)
  {
  }

  lemma TwoEvents(w: World, a: Event, b: Event)
    ensures Exec(w, [a]) == Next(w, a)
    ensures Exec(w, [a, b]) == Next(Next(w, a), b)
  {
    ExecAppend(w, [], a);
    ExecAppend(w, [a], b);
    assert [] + [a] == [a] && [a] + [b] == [a, b];
  }

  /** What the invariant says about an id in the session table. */
  lemma ListedSession(w: World, id: UploadId)
    requires Inv(w)
    ensures id in w.live ==> id in w.sessions && w.sessions[id].chunkSize != 0 && NotStored(w, id)
  {
    if id in w.live {
      forall k | 0 <= k < |w.artifacts| ensures w.artifacts[k].id != id {
        assert ArtifactOk(w, w.artifacts[k]);
      }
    }
  }

  /** A listed session with as many chunks as announced has all of them in the store. */
  lemma AssemblyReady(w: World, id: UploadId)
    requires Inv(w)
    ensures id in w.live && |w.sessions[id].uploaded| == Chunks(w.sessions[id]) ==>
      forall i: nat :: i < Count(w.sessions[id]) ==> (id, i) in w.blobs
  {
    if id in w.live && |w.sessions[id].uploaded| == Chunks(w.sessions[id]) {
      AllIndices(w.sessions[id].uploaded, Count(w.sessions[id]));
    }
  }

  lemma {:induction false} ExecConcat(w: World, a: seq<Event>, b: seq<Event>)
    ensures Exec(w, a + b) == Exec(Exec(w, a), b)
    decreases |a|
  {
    if a == [] {
      assert [] + b == b;
    } else {
      assert (a + b)[1..] == a[1..] + b;
      ExecConcat(Next(w, a[0]), a[1..], b);
    }
  }

  lemma CompletionScript(w: World, t: Thread, id: UploadId, tenant: nat)
    ensures Exec(w, [Take(t, id, tenant)]) == Next(w, Take(t, id, tenant))
    ensures Exec(w, [Take(t, id, tenant)] + [Check(t)]) == Next(Next(w, Take(t, id, tenant)), Check(t))
  {
    ExecAppend(w, [], Take(t, id, tenant));
    ExecAppend(w, [Take(t, id, tenant)], Check(t));
    assert [] + [Take(t, id, tenant)] == [Take(t, id, tenant)];
  }

  lemma UploadScript(w: World, t: Thread, id: UploadId, tenant: nat, chunk: nat, body: Bytes)
    ensures var a := Accept(t, id, tenant, chunk, body);
            && Exec(w, [a, AbortUpload(t)]) == Next(Next(w, a), AbortUpload(t))
            && Exec(w, [a, StoreChunk(t), Mark(t)]) == Next(Next(Next(w, a), StoreChunk(t)), Mark(t))
  {
    var a := Accept(t, id, tenant, chunk, body);
    ExecAppend(w, [], a);
    ExecAppend(w, [a], AbortUpload(t));
    ExecAppend(w, [a], StoreChunk(t));
    ExecAppend(w, [a, StoreChunk(t)], Mark(t));
    assert [] + [a] == [a] && [a] + [AbortUpload(t)] == [a, AbortUpload(t)];
    assert [a] + [StoreChunk(t)] == [a, StoreChunk(t)] && [a, StoreChunk(t)] + [Mark(t)] == [a, StoreChunk(t), Mark(t)];
  }
}

/** Refresh-token rotation over the token table. `Rotate` is the method as one atomic step;
    `RotateBegin` and `RotateCommit` are its two halves as the code runs them: the old token is
    validated outside the transaction that revokes it and inserts the new one. */
module RefreshTokens {
  import opened Wrappers

  type Id = nat
  type Hash = string

  const RETENTION := 7 * 24 * 3600

  datatype Row = Row(hash: Hash, user: int, session: string, client: Option<string>, expiresAt: int, revoked: bool,
    parent: Option<Id>)

  type Table = map<Id, Row>

  /** `used` is history: every hash ever inserted. `pending` are rotations between their halves. */
  datatype State = State(rows: Table, next: Id, used: set<Hash>, pending: map<nat, Id>)

  datatype Event =
    | Store(hash: Hash, user: int, session: string, client: Option<string>, expiresAt: int)
    // `id` is the row the lookup by hash finds
    | Rotate(id: Id, presented: Hash, minted: Hash, expiresAt: int, now: int)
    | RotateBegin(t: nat, id: Id, presented: Hash, now: int)
    | RotateCommit(t: nat, minted: Hash, expiresAt: int)
    | Revoke(hash: Hash)
    | RevokeUser(user: int)
    | RevokeSession(session: string)
    | Cleanup(now: int)

  /** The lookup accepts this row for this token. */
  predicate Accepts(rows: Table, id: Id, hash: Hash, now: int) {
    id in rows && rows[id].hash == hash && !rows[id].revoked && rows[id].expiresAt > now
  }

  /** A token validates. */
  ghost predicate Validates(rows: Table, hash: Hash, now: int) {
    exists id :: Accepts(rows, id, hash, now)
  }

  predicate HashTaken(rows: Table, hash: Hash) {
    exists id :: id in rows && rows[id].hash == hash
  }

  /** UPDATE ... SET is_revoked = true, for the rows selected. */
  function RevokeWhere(rows: Table, selected: Row -> bool): Table {
    map id | id in rows :: if selected(rows[id]) then rows[id].(revoked := true) else rows[id]
  }

  function Insert(s: State, row: Row): State {
    if HashTaken(s.rows, row.hash) then s
    else s.(rows := s.rows[s.next := row], next := s.next + 1, used := s.used + {row.hash})
  }

  /** The transaction of a rotation: revoke the old row, insert its child. A missing parent or a
      taken hash rolls everything back. */
  function Replace(s: State, id: Id, minted: Hash, expiresAt: int): State {
    if id !in s.rows || HashTaken(s.rows, minted) then s
    else
      var row := s.rows[id];
      Insert(s.(rows := s.rows[id := row.(revoked := true)]),
             Row(minted, row.user, row.session, row.client, expiresAt, false, Some(id)))
  }

  function Stale(rows: Table, now: int): set<Id> {
    set id | id in rows && rows[id].expiresAt < now - RETENTION
  }

  /** Deleting the stale rows would leave no row without its parent. */
  predicate Deletable(rows: Table, stale: set<Id>) {
    forall id :: id in rows && id !in stale && rows[id].parent.Some? ==> rows[id].parent.value !in stale
  }

  /** One step; a step that is refused or fails changes nothing. */
  function Next(s: State, ev: Event): State {
    match ev
    case Store(hash, user, session, client, expiresAt) =>
      Insert(s, Row(hash, user, session, client, expiresAt, false, None))
    case Rotate(id, presented, minted, expiresAt, now) =>
      if Accepts(s.rows, id, presented, now) then Replace(s, id, minted, expiresAt) else s
    case RotateBegin(t, id, presented, now) =>
      if Accepts(s.rows, id, presented, now) && t !in s.pending then s.(pending := s.pending[t := id]) else s
    case RotateCommit(t, minted, expiresAt) =>
      if t !in s.pending then s
      else Replace(s, s.pending[t], minted, expiresAt).(pending := s.pending - {t})
    case Revoke(hash) => s.(rows := RevokeWhere(s.rows, (r: Row) => r.hash == hash))
    case RevokeUser(user) => s.(rows := RevokeWhere(s.rows, (r: Row) => r.user == user))
    case RevokeSession(session) => s.(rows := RevokeWhere(s.rows, (r: Row) => r.session == session))
    case Cleanup(now) =>
      if Deletable(s.rows, Stale(s.rows, now)) then s.(rows := s.rows - Stale(s.rows, now)) else s
  }

  function Exec(s: State, evs: seq<Event>): State
    decreases |evs|
  {
    if evs == [] then s else Exec(Next(s, evs[0]), evs[1..])
  }

  /** Rotations happen in one step. */
  predicate Atomic(ev: Event) {
    !ev.RotateBegin? && !ev.RotateCommit?
  }

  /** A new token's hash was never used before. */
  predicate Fresh(s: State, ev: Event) {
    && (ev.Store? ==> ev.hash !in s.used)
    && (ev.Rotate? ==> ev.minted !in s.used)
    && (ev.RotateCommit? ==> ev.minted !in s.used)
  }

  ghost predicate FreshRun(s: State, evs: seq<Event>)
    decreases |evs|
  {
    evs == [] || (Fresh(s, evs[0]) && FreshRun(Next(s, evs[0]), evs[1..]))
  }

  // ---------- The invariant ----------

  /** Every child has its parent in the table, is newer, and inherits user, session and client;
      the parent is revoked. */
  ghost predicate ParentsOk(rows: Table) {
    forall id :: id in rows && rows[id].parent.Some? ==>
      var p := rows[id].parent.value;
      p in rows && p < id && rows[p].revoked
      && rows[p].user == rows[id].user && rows[p].session == rows[id].session && rows[p].client == rows[id].client
  }

  ghost predicate OneChildEach(rows: Table) {
    forall a, b :: a in rows && b in rows && rows[a].parent.Some? && rows[a].parent == rows[b].parent ==> a == b
  }

  ghost predicate HashesOk(s: State) {
    && (forall a, b :: a in s.rows && b in s.rows && s.rows[a].hash == s.rows[b].hash ==> a == b)
    && (forall id :: id in s.rows ==> id < s.next && s.rows[id].hash in s.used)
  }

  ghost predicate Inv(s: State) {
    ParentsOk(s.rows) && OneChildEach(s.rows) && HashesOk(s)
  }

  /** What the transaction of a rotation does when it commits. */
  lemma ReplaceShape(s: State, id: Id, minted: Hash, expiresAt: int)
    requires id in s.rows && !HashTaken(s.rows, minted)
    ensures Replace(s, id, minted, expiresAt)
      == s.(rows := WithChild(s.rows, id, s.next, minted, expiresAt), next := s.next + 1, used := s.used + {minted})
  {
    var revoked := s.rows[id := s.rows[id].(revoked := true)];
    assert forall k :: k in revoked ==> k in s.rows && revoked[k].hash == s.rows[k].hash;
  }

  function WithChild(rows: Table, id: Id, child: Id, minted: Hash, expiresAt: int): Table
    requires id in rows
  {
    var row := rows[id];
    rows[id := row.(revoked := true)][child := Row(minted, row.user, row.session, row.client, expiresAt, false,
      Some(id))]
  }

  lemma ChildKeepsParents(s: State, id: Id, minted: Hash, expiresAt: int)
    requires Inv(s) && id in s.rows
    ensures ParentsOk(WithChild(s.rows, id, s.next, minted, expiresAt))
  {
  }

  lemma ChildKeepsOneEach(s: State, id: Id, minted: Hash, expiresAt: int)
    requires Inv(s) && id in s.rows && forall c :: c in s.rows ==> s.rows[c].parent != Some(id)
    ensures OneChildEach(WithChild(s.rows, id, s.next, minted, expiresAt))
  {
  }

  /** A live row has no child, so giving it one keeps the table in order. */
  lemma ReplaceKeeps(s: State, id: Id, minted: Hash, expiresAt: int)
    requires Inv(s) && (forall c :: c in s.rows ==> s.rows[c].parent != Some(id))
    ensures Inv(Replace(s, id, minted, expiresAt))
  {
    if id in s.rows && !HashTaken(s.rows, minted) {
      ReplaceShape(s, id, minted, expiresAt);
      ChildKeepsParents(s, id, minted, expiresAt);
      ChildKeepsOneEach(s, id, minted, expiresAt);
      ChildKeepsHashes(s, id, minted, expiresAt);
    }
  }

  lemma ChildKeepsHashes(s: State, id: Id, minted: Hash, expiresAt: int)
    requires HashesOk(s) && id in s.rows && !HashTaken(s.rows, minted)
    ensures HashesOk(s.(rows := WithChild(s.rows, id, s.next, minted, expiresAt), next := s.next + 1,
            used := s.used + {minted}))
  {
  }

  lemma RevokeWhereKeeps(s: State, selected: Row -> bool)
    requires Inv(s)
    ensures Inv(s.(rows := RevokeWhere(s.rows, selected)))
  {
    var rows := RevokeWhere(s.rows, selected);
    assert forall id :: id in rows ==> rows[id] == s.rows[id] || rows[id] == s.rows[id].(revoked := true);
  }

  lemma StoreKeeps(s: State, ev: Event)
    requires Inv(s) && ev.Store?
    ensures Inv(Next(s, ev))
  {
  }

  lemma DeletionKeepsParents(rows: Table, stale: set<Id>)
    requires ParentsOk(rows) && Deletable(rows, stale)
    ensures ParentsOk(rows - stale)
  {
  }

  lemma CleanupKeeps(s: State, now: int)
    requires Inv(s)
    ensures Inv(Next(s, Cleanup(now)))
  {
    var stale := Stale(s.rows, now);
    if Deletable(s.rows, stale) {
      DeletionKeepsParents(s.rows, stale);
      assert OneChildEach(s.rows - stale);
      assert HashesOk(s.(rows := s.rows - stale));
    }
  }

  lemma StepKeeps(s: State, ev: Event)
    requires Inv(s) && Atomic(ev)
    ensures Inv(Next(s, ev))
  {
    match ev
    case Store(_, _, _, _, _) => StoreKeeps(s, ev);
    case Rotate(id, presented, minted, expiresAt, now) =>
      if Accepts(s.rows, id, presented, now) {
        LiveHasNoChild(s, id);
        ReplaceKeeps(s, id, minted, expiresAt);
      }
    case Revoke(hash) => RevokeWhereKeeps(s, (r: Row) => r.hash == hash);
    case RevokeUser(user) => RevokeWhereKeeps(s, (r: Row) => r.user == user);
    case RevokeSession(session) => RevokeWhereKeeps(s, (r: Row) => r.session == session);
    case Cleanup(now) => CleanupKeeps(s, now);
    case _ =>
  }

  lemma LiveHasNoChild(s: State, id: Id)
    requires Inv(s) && id in s.rows && !s.rows[id].revoked
    ensures forall c :: c in s.rows ==> s.rows[c].parent != Some(id)
  {
  }

  /** A commit that goes through finds its token without a child. */
  ghost predicate Childless(s: State, ev: Event) {
    ev.RotateCommit? && ev.t in s.pending && s.pending[ev.t] in s.rows && !HashTaken(s.rows, ev.minted) ==>
      forall c :: c in s.rows ==> s.rows[c].parent != Some(s.pending[ev.t])
  }

  ghost predicate CommitsChildless(s: State, evs: seq<Event>)
    decreases |evs|
  {
    evs == [] || (Childless(s, evs[0]) && CommitsChildless(Next(s, evs[0]), evs[1..]))
  }

  /** The invariant holds in every state along the run. */
  ghost predicate InvAlways(s: State, evs: seq<Event>)
    decreases |evs|
  {
    Inv(s) && (evs == [] || InvAlways(Next(s, evs[0]), evs[1..]))
  }

  lemma CommitKeepsIff(s: State, t: nat, minted: Hash, expiresAt: int)
    requires Inv(s)
    ensures Inv(Next(s, RotateCommit(t, minted, expiresAt))) <==> Childless(s, RotateCommit(t, minted, expiresAt))
  {
    if t in s.pending && s.pending[t] in s.rows && !HashTaken(s.rows, minted) {
      var id := s.pending[t];
      ReplaceShape(s, id, minted, expiresAt);
      if c :| c in s.rows && s.rows[c].parent == Some(id) {
        TwoChildren(s.rows, id, c, s.next, minted, expiresAt);
      } else {
        ReplaceKeeps(s, id, minted, expiresAt);
      }
    }
  }

  lemma TwoChildren(rows: Table, id: Id, c: Id, next: Id, minted: Hash, expiresAt: int)
    requires id in rows && c in rows && rows[c].parent == Some(id) && next !in rows
    ensures !OneChildEach(WithChild(rows, id, next, minted, expiresAt))
  {
    var after := WithChild(rows, id, next, minted, expiresAt);
    assert after[c].parent == Some(id) && after[next].parent == Some(id) && c != next;
  }

  /** Over every run, interleaved rotations included: the table stays in order throughout if and
      only if every commit finds its token childless. */
  lemma {:induction false} RunKeepsIff(s: State, evs: seq<Event>)
    requires Inv(s)
    ensures InvAlways(s, evs) <==> CommitsChildless(s, evs)
    ensures CommitsChildless(s, evs) ==> Inv(Exec(s, evs))
    decreases |evs|
  {
    if evs != [] {
      match evs[0] {
        case RotateBegin(_, _, _, _) =>
        case RotateCommit(t, minted, expiresAt) => CommitKeepsIff(s, t, minted, expiresAt);
        case _ => StepKeeps(s, evs[0]);
      }
      if Inv(Next(s, evs[0])) {
        RunKeepsIff(Next(s, evs[0]), evs[1..]);
      } else {
        assert !InvAlways(Next(s, evs[0]), evs[1..]);
      }
    }
  }

  /** In particular it does when rotations are atomic. */
  lemma {:induction false} AtomicIsChildless(s: State, evs: seq<Event>)
    requires forall i :: 0 <= i < |evs| ==> Atomic(evs[i])
    ensures CommitsChildless(s, evs)
    decreases |evs|
  {
    if evs != [] {
      assert forall i :: 0 <= i < |evs[1..]| ==> evs[1..][i] == evs[i + 1];
      AtomicIsChildless(Next(s, evs[0]), evs[1..]);
    }
  }

  // ---------- Chains ----------

  /** The token a rotation chain started from. */
  ghost function Root(rows: Table, id: Id): Id
    requires ParentsOk(rows) && id in rows
    decreases id
  {
    if rows[id].parent.None? then id else Root(rows, rows[id].parent.value)
  }

  /** `a` was rotated, in one or more steps, into `d`. */
  ghost predicate Ancestor(rows: Table, a: Id, d: Id)
    requires ParentsOk(rows) && d in rows
    decreases d
  {
    rows[d].parent.Some? && (rows[d].parent.value == a || Ancestor(rows, a, rows[d].parent.value))
  }

  lemma {:induction false} AncestorIsRevoked(rows: Table, a: Id, d: Id)
    requires ParentsOk(rows) && d in rows && Ancestor(rows, a, d)
    ensures a in rows && rows[a].revoked
    decreases d
  {
    if rows[d].parent.value != a {
      AncestorIsRevoked(rows, a, rows[d].parent.value);
    }
  }

  /** A proper ancestor of `d` has a child that is `d` or an ancestor of it. */
  lemma {:induction false} ChildOnTheWay(rows: Table, a: Id, d: Id) returns (c: Id)
    requires ParentsOk(rows) && d in rows && Ancestor(rows, a, d)
    ensures c in rows && rows[c].parent == Some(a) && (c == d || Ancestor(rows, c, d))
    decreases d
  {
    var p := rows[d].parent.value;
    if p == a {
      c := d;
    } else {
      c := ChildOnTheWay(rows, a, p);
    }
  }

  lemma {:induction false} RootIsAncestor(rows: Table, d: Id)
    requires ParentsOk(rows) && d in rows
    ensures Root(rows, d) == d || Ancestor(rows, Root(rows, d), d)
    decreases d
  {
    if rows[d].parent.Some? {
      RootIsAncestor(rows, rows[d].parent.value);
    }
  }

  /** Two tokens of one chain: one was rotated into the other. */
  lemma {:induction false} ChainIsLinear(rows: Table, x: Id, y: Id)
    requires ParentsOk(rows) && OneChildEach(rows) && x in rows && y in rows
    requires Root(rows, x) == Root(rows, y)
    ensures x == y || Ancestor(rows, x, y) || Ancestor(rows, y, x)
    decreases x + y
  {
    if rows[x].parent.None? {
      RootIsAncestor(rows, y);
    } else if rows[y].parent.None? {
      RootIsAncestor(rows, x);
    } else {
      var px, py := rows[x].parent.value, rows[y].parent.value;
      ChainIsLinear(rows, px, py);
      if px != py {
        if Ancestor(rows, px, py) {
          var c := ChildOnTheWay(rows, px, py);
          assert c == x;
        } else {
          var c := ChildOnTheWay(rows, py, px);
          assert c == y;
        }
      }
    }
  }

  /** In every state reached by a run whose commits find their tokens childless, a rotation chain
      has at most one token that is not revoked, and every token has at most one child, which
      inherits its identity. */
  lemma OneLiveTokenPerChain(s: State, evs: seq<Event>, x: Id, y: Id)
    requires Inv(s) && CommitsChildless(s, evs)
    ensures var rows := Exec(s, evs).rows;
            && ParentsOk(rows) && OneChildEach(rows)
            && (x in rows && y in rows && !rows[x].revoked && !rows[y].revoked && Root(rows, x) == Root(rows, y)
              ==> x == y)
  {
    RunKeepsIff(s, evs);
    var rows := Exec(s, evs).rows;
    if x in rows && y in rows && !rows[x].revoked && !rows[y].revoked && Root(rows, x) == Root(rows, y) && x != y {
      ChainIsLinear(rows, x, y);
      if Ancestor(rows, x, y) {
        AncestorIsRevoked(rows, x, y);
      } else {
        AncestorIsRevoked(rows, y, x);
      }
    }
  }

  // ---------- Clean-up and chains ----------

  /** No token expires before the one it was rotated from. */
  ghost predicate Aging(rows: Table)
    requires ParentsOk(rows)
  {
    forall id :: id in rows && rows[id].parent.Some? ==> rows[rows[id].parent.value].expiresAt <= rows[id].expiresAt
  }

  lemma {:induction false} RootIsOldest(rows: Table, id: Id)
    requires ParentsOk(rows) && id in rows
    ensures Root(rows, id) in rows && (Aging(rows) ==> rows[Root(rows, id)].expiresAt <= rows[id].expiresAt)
    decreases id
  {
    if rows[id].parent.Some? {
      RootIsOldest(rows, rows[id].parent.value);
    }
  }

  lemma {:induction false} StaleRootMakesStale(rows: Table, stale: set<Id>, id: Id)
    requires ParentsOk(rows) && id in rows && Deletable(rows, stale) && Root(rows, id) in stale
    ensures id in stale
    decreases id
  {
    if rows[id].parent.Some? {
      StaleRootMakesStale(rows, stale, rows[id].parent.value);
    }
  }

  /** Every chain whose first token is stale is stale altogether. */
  ghost predicate WholeChains(rows: Table, stale: set<Id>)
    requires ParentsOk(rows)
  {
    forall k :: k in rows && Root(rows, k) in stale ==> k in stale
  }

  /** With aging tokens a stale token has a stale root. */
  lemma StaleHasStaleRoot(rows: Table, now: int, k: Id)
    requires ParentsOk(rows) && Aging(rows) && k in Stale(rows, now)
    ensures Root(rows, k) in Stale(rows, now)
  {
    RootIsOldest(rows, k);
  }

  /** Whole chains are what deletion needs. */
  lemma DeletableIffWhole(rows: Table, now: int)
    requires ParentsOk(rows) && Aging(rows)
    ensures Deletable(rows, Stale(rows, now)) <==> WholeChains(rows, Stale(rows, now))
  {
    var stale := Stale(rows, now);
    if Deletable(rows, stale) {
      forall k | k in rows && Root(rows, k) in stale ensures k in stale {
        StaleRootMakesStale(rows, stale, k);
      }
    }
    if WholeChains(rows, stale) {
      forall k | k in rows && k !in stale && rows[k].parent.Some? ensures rows[k].parent.value !in stale {
        if rows[k].parent.value in stale {
          StaleHasStaleRoot(rows, now, rows[k].parent.value);
        }
      }
    }
  }

  /** Clean-up works on whole chains: it goes through exactly if every chain whose first token is
      stale is stale altogether, and then deletes exactly those chains. So a session that is
      rotated for longer than its first token lasts keeps every stale token in the table. */
  lemma CleanupTakesWholeChains(s: State, now: int, id: Id)
    requires Inv(s) && Aging(s.rows) && id in s.rows
    ensures var after := Next(s, Cleanup(now)).rows;
            var stale := Stale(s.rows, now);
            && (WholeChains(s.rows, stale) ==> (id !in after <==> Root(s.rows, id) in stale))
            && (!WholeChains(s.rows, stale) ==> after == s.rows)
  {
    DeletableIffWhole(s.rows, now);
    if id in Stale(s.rows, now) {
      StaleHasStaleRoot(s.rows, now, id);
    }
  }

  // ---------- Never again ----------

  /** The hash was used, and no live row carries it. */
  ghost predicate Dead(s: State, hash: Hash) {
    hash in s.used && forall id :: id in s.rows && s.rows[id].hash == hash ==> s.rows[id].revoked
  }

  lemma DeadStaysDead(s: State, ev: Event, hash: Hash)
    requires Dead(s, hash) && Fresh(s, ev)
    ensures Dead(Next(s, ev), hash)
  {
  }

  /** A token that has been rotated or revoked never validates again, whatever happens next, as
      long as new tokens are new. This holds for interleaved rotations too. */
  lemma {:induction false} DeadForever(s: State, evs: seq<Event>, hash: Hash, now: int)
    requires Dead(s, hash) && FreshRun(s, evs)
    ensures !Validates(Exec(s, evs).rows, hash, now)
    decreases |evs|
  {
    if evs != [] {
      DeadStaysDead(s, evs[0], hash);
      DeadForever(Next(s, evs[0]), evs[1..], hash, now);
    }
  }

  /** What makes a token dead: a rotation that succeeds, and a revocation of the token, of its
      user or of its session. */
  lemma RotationAndRevocationKill(s: State, id: Id, minted: Hash, expiresAt: int, now: int)
    requires Inv(s) && id in s.rows && minted !in s.used
    ensures var row := s.rows[id];
            && (Accepts(s.rows, id, row.hash, now) ==>
                  var after := Next(s, Rotate(id, row.hash, minted, expiresAt, now));
                  Dead(after, row.hash) && Validates(after.rows, minted, expiresAt - 1))
            && Dead(Next(s, Revoke(row.hash)), row.hash)
            && Dead(Next(s, RevokeUser(row.user)), row.hash)
            && Dead(Next(s, RevokeSession(row.session)), row.hash)
  {
    var row := s.rows[id];
    if Accepts(s.rows, id, row.hash, now) {
      var after := Next(s, Rotate(id, row.hash, minted, expiresAt, now));
      assert Accepts(after.rows, s.next, minted, expiresAt - 1);
    }
  }

  // ---------- How long a token lives ----------

  /** A row for this token could be used at this time. */
  ghost predicate LiveRow(rows: Table, hash: Hash, now: int) {
    exists id :: id in rows && rows[id].hash == hash && !rows[id].revoked && now < rows[id].expiresAt
  }

  /** Every row of this token expires at `expiry`. */
  ghost predicate ExpiresAt(s: State, hash: Hash, expiry: int) {
    hash in s.used && forall id :: id in s.rows && s.rows[id].hash == hash ==> s.rows[id].expiresAt == expiry
  }

  lemma ExpiryStays(s: State, ev: Event, hash: Hash, expiry: int)
    requires ExpiresAt(s, hash, expiry) && Fresh(s, ev)
    ensures ExpiresAt(Next(s, ev), hash, expiry)
  {
  }

  /** No run prolongs a token: at or after its expiry it has no live row. */
  lemma {:induction false} ExpiredForever(s: State, evs: seq<Event>, hash: Hash, expiry: int, now: int)
    requires ExpiresAt(s, hash, expiry) && FreshRun(s, evs) && now >= expiry
    ensures !LiveRow(Exec(s, evs).rows, hash, now)
    decreases |evs|
  {
    if evs != [] {
      ExpiryStays(s, evs[0], hash, expiry);
      ExpiredForever(Next(s, evs[0]), evs[1..], hash, expiry, now);
    }
  }

  /** A rotation that does anything presents a live token. */
  lemma RotationNeedsLiveToken(s: State, id: Id, presented: Hash, minted: Hash, expiresAt: int, now: int, t: nat)
    requires || Next(s, Rotate(id, presented, minted, expiresAt, now)) != s
             || Next(s, RotateBegin(t, id, presented, now)) != s
    ensures id in s.rows && s.rows[id].hash == presented && !s.rows[id].revoked && now < s.rows[id].expiresAt
  {
  }

  /** The event rotates or revokes the token, or cleans it up. */
  predicate Ends(s: State, ev: Event, id: Id, row: Row) {
    match ev
    case Rotate(i, _, _, _, _) => i == id
    case RotateCommit(t, _, _) => t in s.pending && s.pending[t] == id
    case Revoke(hash) => hash == row.hash
    case RevokeUser(user) => user == row.user
    case RevokeSession(session) => session == row.session
    case Cleanup(now) => row.expiresAt < now - 604_800
    case _ => false
  }

  ghost predicate NeverEnds(s: State, evs: seq<Event>, id: Id, row: Row)
    decreases |evs|
  {
    evs == [] || (!Ends(s, evs[0], id, row) && NeverEnds(Next(s, evs[0]), evs[1..], id, row))
  }

  lemma RowStays(s: State, ev: Event, id: Id, row: Row)
    requires HashesOk(s) && id in s.rows && s.rows[id] == row && !Ends(s, ev, id, row)
    ensures id in Next(s, ev).rows && Next(s, ev).rows[id] == row
  {
  }

  lemma {:induction false} RowLives(s: State, evs: seq<Event>, id: Id, row: Row)
    requires HashesOk(s) && id in s.rows && s.rows[id] == row && NeverEnds(s, evs, id, row)
    ensures id in Exec(s, evs).rows && Exec(s, evs).rows[id] == row && HashesOk(Exec(s, evs))
    decreases |evs|
  {
    if evs != [] {
      RowStays(s, evs[0], id, row);
      StepKeepsHashes(s, evs[0]);
      RowLives(Next(s, evs[0]), evs[1..], id, row);
    }
  }

  /** A token that is stored and neither rotated, revoked nor cleaned up has a live row exactly
      until it expires, whatever else happens. */
  lemma TokenLivesUntilExpiry(s: State, hash: Hash, user: int, session: string, client: Option<string>, expiry: int,
                              evs: seq<Event>, now: int)
    requires HashesOk(s) && hash !in s.used
    requires var row := Row(hash, user, session, client, expiry, false, None);
             NeverEnds(Next(s, Store(hash, user, session, client, expiry)), evs, s.next, row)
    ensures var rows := Exec(Next(s, Store(hash, user, session, client, expiry)), evs).rows;
            LiveRow(rows, hash, now) <==> now < expiry
  {
    var row := Row(hash, user, session, client, expiry, false, None);
    var stored := Next(s, Store(hash, user, session, client, expiry));
    assert !HashTaken(s.rows, hash);
    StepKeepsHashes(s, Store(hash, user, session, client, expiry));
    RowLives(stored, evs, s.next, row);
  }

  // ---------- What each operation leaves alone ----------

  /** Storing adds one live row of its own and touches no other; a taken hash changes nothing. */
  lemma StoreExact(s: State, hash: Hash, user: int, session: string, client: Option<string>, expiry: int)
    ensures var after := Next(s, Store(hash, user, session, client, expiry));
            if exists id :: id in s.rows && s.rows[id].hash == hash then after == s
            else after.rows == s.rows[s.next := Row(hash, user, session, client, expiry, false, None)]
                 && after.next == s.next + 1
  {
  }

  /** Revoking touches exactly the rows of the token, the user or the session, and of those only
      the revocation. */
  lemma RevokeExact(s: State, hash: Hash, user: int, session: string, id: Id)
    requires id in s.rows
    ensures var row := s.rows[id];
            var byHash, byUser, bySession :=
              Next(s, Revoke(hash)).rows, Next(s, RevokeUser(user)).rows, Next(s, RevokeSession(session)).rows;
            && byHash.Keys == byUser.Keys == bySession.Keys == s.rows.Keys
            && byHash[id] == (if row.hash == hash then row.(revoked := true) else row)
            && byUser[id] == (if row.user == user then row.(revoked := true) else row)
            && bySession[id] == (if row.session == session then row.(revoked := true) else row)
  {
  }

  /** A rotation that goes through revokes the token, adds its child and touches nothing else. */
  lemma RotateExact(s: State, id: Id, minted: Hash, expiry: int, now: int)
    requires id in s.rows && !s.rows[id].revoked && now < s.rows[id].expiresAt && id < s.next
    requires forall k :: k in s.rows ==> s.rows[k].hash != minted
    ensures var row := s.rows[id];
            Next(s, Rotate(id, row.hash, minted, expiry, now)).rows
            == s.rows[id := row.(revoked := true)]
                     [s.next := Row(minted, row.user, row.session, row.client, expiry, false, Some(id))]
  {
    ReplaceShape(s, id, minted, expiry);
  }

  // ---------- Revoked sessions ----------

  ghost predicate SessionDead(rows: Table, session: string) {
    forall id :: id in rows && rows[id].session == session ==> rows[id].revoked
  }

  /** After a session's tokens are revoked, none of its tokens validates until one is stored for
      it again: rotation cannot bring it back. */
  lemma {:induction false} RevokedSessionStaysRevoked(s: State, evs: seq<Event>, session: string, hash: Hash, now: int)
    requires SessionDead(s.rows, session)
    requires forall i :: 0 <= i < |evs| ==> Atomic(evs[i]) && !(evs[i].Store? && evs[i].session == session)
    ensures var rows := Exec(s, evs).rows;
            SessionDead(rows, session) && forall id :: Accepts(rows, id, hash, now) ==> rows[id].session != session
    decreases |evs|
  {
    if evs != [] {
      assert SessionDead(Next(s, evs[0]).rows, session);
      assert forall i :: 0 <= i < |evs[1..]| ==> evs[1..][i] == evs[i + 1];
      RevokedSessionStaysRevoked(Next(s, evs[0]), evs[1..], session, hash, now);
    }
  }

  lemma RevokeSessionStays(s: State, evs: seq<Event>, session: string, hash: Hash, now: int)
    requires forall i :: 0 <= i < |evs| ==> Atomic(evs[i]) && !(evs[i].Store? && evs[i].session == session)
    ensures var rows := Exec(Next(s, RevokeSession(session)), evs).rows;
            forall id :: Accepts(rows, id, hash, now) ==> rows[id].session != session
  {
    assert SessionDead(Next(s, RevokeSession(session)).rows, session);
    RevokedSessionStaysRevoked(Next(s, RevokeSession(session)), evs, session, hash, now);
  }

  /** A commit that goes through is not for a token of this session. */
  predicate CommitsElsewhere(s: State, ev: Event, session: string) {
    ev.RotateCommit? && ev.t in s.pending && s.pending[ev.t] in s.rows && !HashTaken(s.rows, ev.minted) ==>
      s.rows[s.pending[ev.t]].session != session
  }

  ghost predicate AllCommitElsewhere(s: State, evs: seq<Event>, session: string)
    decreases |evs|
  {
    evs == [] || (CommitsElsewhere(s, evs[0], session) && AllCommitElsewhere(Next(s, evs[0]), evs[1..], session))
  }

  ghost predicate SessionDeadAlways(s: State, evs: seq<Event>, session: string)
    decreases |evs|
  {
    SessionDead(s.rows, session) && (evs == [] || SessionDeadAlways(Next(s, evs[0]), evs[1..], session))
  }

  lemma CommitRevivesIff(s: State, t: nat, minted: Hash, expiresAt: int, session: string)
    requires HashesOk(s) && SessionDead(s.rows, session)
    ensures SessionDead(Next(s, RotateCommit(t, minted, expiresAt)).rows, session)
      <==> CommitsElsewhere(s, RotateCommit(t, minted, expiresAt), session)
  {
    if t in s.pending && s.pending[t] in s.rows && !HashTaken(s.rows, minted) {
      var id := s.pending[t];
      ReplaceShape(s, id, minted, expiresAt);
      var rows := WithChild(s.rows, id, s.next, minted, expiresAt);
      assert rows[s.next].session == s.rows[id].session && !rows[s.next].revoked;
      assert forall k :: k in rows && k != s.next ==> rows[k].session == s.rows[k].session;
    }
  }

  /** Hashes and ids stay in order whatever is interleaved. */
  lemma StepKeepsHashes(s: State, ev: Event)
    requires HashesOk(s)
    ensures HashesOk(Next(s, ev))
  {
    match ev
    case Rotate(id, presented, minted, expiresAt, now) =>
      ReplaceKeepsHashes(s, id, minted, expiresAt);
    case RotateCommit(t, minted, expiresAt) =>
      if t in s.pending {
        ReplaceKeepsHashes(s, s.pending[t], minted, expiresAt);
      }
    case _ =>
  }

  lemma ReplaceKeepsHashes(s: State, id: Id, minted: Hash, expiresAt: int)
    requires HashesOk(s)
    ensures HashesOk(Replace(s, id, minted, expiresAt))
  {
    if id in s.rows && !HashTaken(s.rows, minted) {
      ReplaceShape(s, id, minted, expiresAt);
      ChildKeepsHashes(s, id, minted, expiresAt);
    }
  }

  /** Over every run without a store for it, interleaved rotations included: a revoked session
      stays revoked throughout if and only if no commit goes through for one of its tokens. */
  lemma {:induction false} RevokedSessionStaysIff(s: State, evs: seq<Event>, session: string)
    requires HashesOk(s) && SessionDead(s.rows, session)
    requires forall i :: 0 <= i < |evs| ==> !(evs[i].Store? && evs[i].session == session)
    ensures SessionDeadAlways(s, evs, session) <==> AllCommitElsewhere(s, evs, session)
    decreases |evs|
  {
    if evs != [] {
      assert forall i :: 0 <= i < |evs[1..]| ==> evs[1..][i] == evs[i + 1];
      StepKeepsHashes(s, evs[0]);
      if evs[0].RotateCommit? {
        CommitRevivesIff(s, evs[0].t, evs[0].minted, evs[0].expiresAt, session);
      }
      if SessionDead(Next(s, evs[0]).rows, session) {
        RevokedSessionStaysIff(Next(s, evs[0]), evs[1..], session);
      } else {
        assert !SessionDeadAlways(Next(s, evs[0]), evs[1..], session);
      }
    }
  }

  // ---------- Exactly where interleaving breaks it ----------

  /** The second half of a rotation, when its insert goes through: the token gets a second child
      exactly if somebody else has rotated it since it was validated, and a revoked session comes
      back to life exactly if it is this token's session. */
  lemma CommitExactly(s: State, t: nat, minted: Hash, expiresAt: int, session: string)
    requires Inv(s) && t in s.pending && s.pending[t] in s.rows && minted !in s.used
    ensures var id := s.pending[t];
            var after := Next(s, RotateCommit(t, minted, expiresAt));
            && (OneChildEach(after.rows) <==> forall c :: c in s.rows ==> s.rows[c].parent != Some(id))
            && (SessionDead(s.rows, session) ==> (SessionDead(after.rows, session) <==> s.rows[id].session != session))
  {
    var id := s.pending[t];
    var after := Next(s, RotateCommit(t, minted, expiresAt));
    assert !HashTaken(s.rows, minted);
    assert after.rows[s.next].parent == Some(id) && after.rows[s.next].session == s.rows[id].session;
    if c :| c in s.rows && s.rows[c].parent == Some(id) {
      assert c in after.rows && after.rows[c].parent == Some(id) && c != s.next;
    }
  }

  /** Two requests that validate one token before either commits both succeed: the token ends up
      with two children, and both new tokens validate. */
  lemma ConcurrentRotationForks(s: State, t: nat, u: nat, id: Id, presented: Hash, h: Hash, g: Hash, expiresAt: int,
                                now: int)
    requires Inv(s) && s.pending == map[] && t != u && Accepts(s.rows, id, presented, now)
    requires h !in s.used && g !in s.used && h != g && expiresAt > now
    ensures var after := Exec(s, [RotateBegin(t, id, presented, now), RotateBegin(u, id, presented, now),
                                  RotateCommit(t, h, expiresAt), RotateCommit(u, g, expiresAt)]);
            !OneChildEach(after.rows) && Validates(after.rows, h, now) && Validates(after.rows, g, now)
  {
    FourSteps(s, RotateBegin(t, id, presented, now), RotateBegin(u, id, presented, now), RotateCommit(t, h, expiresAt),
      RotateCommit(u, g, expiresAt));
    var both := s.(pending := map[t := id, u := id]);
    assert Next(Next(s, RotateBegin(t, id, presented, now)), RotateBegin(u, id, presented, now)) == both;
    TwoCommits(both, t, u, id, h, g, expiresAt, now);
  }

  lemma TwoCommits(s: State, t: nat, u: nat, id: Id, h: Hash, g: Hash, expiresAt: int, now: int)
    requires HashesOk(s) && t != u && s.pending == map[t := id, u := id] && id in s.rows
    requires h !in s.used && g !in s.used && h != g && expiresAt > now
    ensures var after := Next(Next(s, RotateCommit(t, h, expiresAt)), RotateCommit(u, g, expiresAt));
            !OneChildEach(after.rows) && Validates(after.rows, h, now) && Validates(after.rows, g, now)
  {
    ReplaceShape(s, id, h, expiresAt);
    var one := Next(s, RotateCommit(t, h, expiresAt));
    assert one.rows == WithChild(s.rows, id, s.next, h, expiresAt);
    assert one.pending == map[u := id];
    assert forall k :: k in one.rows ==> k == s.next || one.rows[k].hash == s.rows[k].hash;
    SecondCommit(one, u, id, s.next, h, g, expiresAt, now);
  }

  lemma SecondCommit(s: State, u: nat, id: Id, first: Id, h: Hash, g: Hash, expiresAt: int, now: int)
    requires s.pending == map[u := id] && id in s.rows && !HashTaken(s.rows, g) && expiresAt > now
    requires first in s.rows && first != id && first < s.next
    requires s.rows[first].hash == h && s.rows[first].parent == Some(id) && !s.rows[first].revoked
             && s.rows[first].expiresAt == expiresAt
    ensures var after := Next(s, RotateCommit(u, g, expiresAt));
            !OneChildEach(after.rows) && Validates(after.rows, h, now) && Validates(after.rows, g, now)
  {
    ReplaceShape(s, id, g, expiresAt);
    var after := Next(s, RotateCommit(u, g, expiresAt));
    assert after.rows == WithChild(s.rows, id, s.next, g, expiresAt);
    assert Accepts(after.rows, first, h, now) && Accepts(after.rows, s.next, g, now);
  }

  lemma FourSteps(s: State, a: Event, b: Event, c: Event, d: Event)
    ensures Exec(s, [a, b, c, d]) == Next(Next(Next(Next(s, a), b), c), d)
  {
    ExecAppend(s, [], a);
    ExecAppend(s, [a], b);
    ExecAppend(s, [a, b], c);
    ExecAppend(s, [a, b, c], d);
    assert [] + [a] == [a] && [a] + [b] == [a, b] && [a, b] + [c] == [a, b, c] && [a, b, c] + [d] == [a, b, c, d];
  }

  lemma {:induction false} ExecAppend(s: State, evs: seq<Event>, ev: Event)
    ensures Exec(s, evs + [ev]) == Next(Exec(s, evs), ev)
    decreases |evs|
  {
    if evs == [] {
      assert evs + [ev] == [ev];
    } else {
      assert (evs + [ev])[1..] == evs[1..] + [ev];
      ExecAppend(Next(s, evs[0]), evs[1..], ev);
    }
  }

  // ---------- The service ----------

  class RefreshTokenService {
    var rows: Table
    var next: Id
    ghost var used: set<Hash>
    /** Rotations of other requests, between their halves. */
    ghost var pending: map<nat, Id>

    ghost function Snapshot(): State
      reads this
    {
      State(rows, next, used, pending)
    }

    constructor ()
      ensures Inv(Snapshot()) && rows == map[] && pending == map[]
    {
      rows, next, used, pending := map[], 0, {}, map[];
    }

    /** INSERT ... RETURNING id; the hash column is unique. */
    method InsertRow(row: Row) returns (r: Option<Id>)
      modifies this`rows, this`next, this`used
      ensures Snapshot() == Insert(old(Snapshot()), row)
      ensures r == if HashTaken(old(rows), row.hash) then None else Some(old(next))
    {
      if exists id :: id in rows && rows[id].hash == row.hash { return None; }
      rows := rows[next := row];
      used := used + {row.hash};
      r := Some(next);
      next := next + 1;
    }

    method StoreRefreshToken(hash: Hash, user: int, session: string, client: Option<string>, expiresAt: int)
      returns (r: Option<Id>)
      requires Inv(Snapshot())
      modifies this
      ensures Inv(Snapshot()) && Snapshot() == Next(old(Snapshot()), Store(hash, user, session, client, expiresAt))
      ensures r.Some? <==> !HashTaken(old(rows), hash)
    {
      StepKeeps(Snapshot(), Store(hash, user, session, client, expiresAt));
      r := InsertRow(Row(hash, user, session, client, expiresAt, false, None));
    }

    method ValidateRefreshToken(hash: Hash, now: int) returns (r: Option<Id>)
      ensures r.Some? <==> LiveRow(rows, hash, now)
      ensures r.Some? ==> r.value in rows && rows[r.value].hash == hash
                          && !rows[r.value].revoked && now < rows[r.value].expiresAt
      ensures r.Some? ==> Accepts(rows, r.value, hash, now)
    {
      if exists id :: id in rows && Accepts(rows, id, hash, now) {
        var id :| id in rows && Accepts(rows, id, hash, now);
        return Some(id);
      }
      return None;
    }

    /** Validates the old token, then revokes it and inserts its successor in one transaction. */
    method RotateRefreshToken(presented: Hash, minted: Hash, expiresAt: int, now: int)
      returns (r: Option<Id>, found: Option<Id>)
      requires Inv(Snapshot())
      modifies this
      ensures Inv(Snapshot())
      ensures found.Some? <==> LiveRow(old(rows), presented, now)
      ensures found.Some? ==> found.value in old(rows) && old(rows)[found.value].hash == presented
                              && !old(rows)[found.value].revoked && now < old(rows)[found.value].expiresAt
      ensures found.Some? ==> Accepts(old(rows), found.value, presented, now)
                              && Snapshot() == Next(old(Snapshot()), Rotate(found.value, presented, minted, expiresAt,
                                now))
      ensures found.None? ==> Snapshot() == old(Snapshot())
      ensures r.Some? <==> found.Some? && !HashTaken(old(rows), minted)
      ensures r.Some? ==>
        var row := old(rows)[found.value];
        rows == old(rows)[found.value := row.(revoked := true)]
                         [r.value := Row(minted, row.user, row.session, row.client, expiresAt, false, found)]
    {
      found := ValidateRefreshToken(presented, now);
      if found.None? { return None, None; }
      var id := found.value;
      StepKeeps(Snapshot(), Rotate(id, presented, minted, expiresAt, now));
      var tx := rows[id := rows[id].(revoked := true)];
      if exists k :: k in rows && rows[k].hash == minted { return None, found; }
      ReplaceShape(Snapshot(), id, minted, expiresAt);
      var row := rows[id];
      rows := tx[next := Row(minted, row.user, row.session, row.client, expiresAt, false, Some(id))];
      used := used + {minted};
      r := Some(next);
      next := next + 1;
    }

    /** Reports an error when no live row carried the hash. */
    method RevokeRefreshToken(hash: Hash) returns (ok: bool)
      requires Inv(Snapshot())
      modifies this
      ensures Inv(Snapshot()) && Snapshot() == Next(old(Snapshot()), Revoke(hash))
      ensures ok <==> exists id :: id in old(rows) && old(rows)[id].hash == hash && !old(rows)[id].revoked
    {
      StepKeeps(Snapshot(), Revoke(hash));
      ok := exists id :: id in rows && rows[id].hash == hash && !rows[id].revoked;
      rows := RevokeWhere(rows, (r: Row) => r.hash == hash);
    }

    method RevokeAllUserTokens(user: int)
      requires Inv(Snapshot())
      modifies this
      ensures Inv(Snapshot()) && Snapshot() == Next(old(Snapshot()), RevokeUser(user))
    {
      StepKeeps(Snapshot(), RevokeUser(user));
      rows := RevokeWhere(rows, (r: Row) => r.user == user);
    }

    method RevokeSessionTokens(session: string)
      requires Inv(Snapshot())
      modifies this
      ensures Inv(Snapshot()) && Snapshot() == Next(old(Snapshot()), RevokeSession(session))
      ensures SessionDead(rows, session)
    {
      StepKeeps(Snapshot(), RevokeSession(session));
      rows := RevokeWhere(rows, (r: Row) => r.session == session);
    }

    /** Deletes tokens a week past their expiry; refused if a token would lose its parent. */
    method CleanupExpiredTokens(now: int) returns (ok: bool)
      requires Inv(Snapshot())
      modifies this
      ensures Inv(Snapshot()) && Snapshot() == Next(old(Snapshot()), Cleanup(now))
      ensures ok <==> Deletable(old(rows), Stale(old(rows), now))
      // seven days
      ensures ok ==> forall id :: id in rows <==> id in old(rows) && old(rows)[id].expiresAt >= now - 604_800
      ensures forall id :: id in rows ==> rows[id] == old(rows)[id]
      ensures !ok ==> rows == old(rows)
    {
      StepKeeps(Snapshot(), Cleanup(now));
      var stale := Stale(rows, now);
      if !Deletable(rows, stale) { return false; }
      rows := rows - stale;
      return true;
    }
  }
}

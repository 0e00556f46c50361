/** The table of tenant master keys and what creating and rotating do to it.

    The migration declares `tenant_id UNIQUE`, while rotation is written for a table that keeps
    one row per version. Every function here takes the uniqueness rule as a parameter, so that
    both schemas can be compared. */
module TmkTable {
  import opened Wrappers
  import opened Utf8
  import opened Kms

  datatype Row = Row(tenant: nat, version: int, active: bool, kmsKeyId: KeyId, encryptedKey: Bytes)

  type Table = seq<Row>

  datatype Uniqueness = PerTenant | PerVersion

  /** Where a call stops: nowhere, before the insert, on the insert itself, or on commit. */
  datatype Fault = NoFault | BeforeInsert | OnInsert | OnCommit

  predicate Clash(unique: Uniqueness, a: Row, b: Row) {
    a.tenant == b.tenant && (unique.PerTenant? || a.version == b.version)
  }

  function Insert(unique: Uniqueness, rows: Table, row: Row): Option<Table> {
    if exists i :: 0 <= i < |rows| && Clash(unique, rows[i], row) then None else Some(rows + [row])
  }

  /** UPDATE ... SET is_active = false WHERE tenant_id = tenant AND is_active. */
  function Deactivate(rows: Table, tenant: nat): (r: Table)
    ensures |r| == |rows|
    ensures forall i :: 0 <= i < |rows| ==>
      r[i] == if rows[i].tenant == tenant then rows[i].(active := false) else rows[i]
  {
    seq(|rows|, i requires 0 <= i < |rows| =>
      if rows[i].tenant == tenant && rows[i].active then rows[i].(active := false) else rows[i])
  }

  /** The first active row of a tenant, as SELECT ... LIMIT 1 or QueryRow returns it. */
  function ActiveRow(rows: Table, tenant: nat): (r: Option<Row>)
    ensures r.Some? ==> r.value in rows && r.value.tenant == tenant && r.value.active
    ensures r.None? ==> forall row :: row in rows && row.tenant == tenant ==> !row.active
  {
    if rows == [] then None
    else if rows[0].tenant == tenant && rows[0].active then Some(rows[0])
    else ActiveRow(rows[1..], tenant)
  }

  function NextVersion(rows: Table, tenant: nat): int {
    match ActiveRow(rows, tenant)
    case None => 1
    case Some(row) => row.version + 1
  }

  /** One call. `encryptedKey` is the wrapped form of the key bytes the call generated. */
  datatype Op =
    | Create(tenant: nat, kmsKeyId: KeyId, encryptedKey: Bytes, fault: Fault)
    | Rotate(tenant: nat, kmsKeyId: KeyId, encryptedKey: Bytes, fault: Fault)

  /** The rows after a call that succeeds, or None when the call returns an error. */
  function Attempt(unique: Uniqueness, rows: Table, op: Op): Option<Table> {
    if op.fault != NoFault then None
    else
      match op
      case Create(t, id, key, _) => Insert(unique, rows, Row(t, 1, true, id, key))
      case Rotate(t, id, key, _) =>
        Insert(unique, Deactivate(rows, t), Row(t, NextVersion(rows, t), true, id, key))
  }

  /** The rows after a call either way: a failed call rolls back. */
  function Apply(unique: Uniqueness, rows: Table, op: Op): Table {
    match Attempt(unique, rows, op)
    case None => rows
    case Some(after) => after
  }

  function Run(unique: Uniqueness, rows: Table, ops: seq<Op>): Table
    decreases |ops|
  {
    if ops == [] then rows else Run(unique, Apply(unique, rows, ops[0]), ops[1..])
  }

  /** The rows of one tenant, in insertion order. */
  function TenantRows(rows: Table, tenant: nat): Table {
    if rows == [] then []
    else (if rows[0].tenant == tenant then [rows[0]] else []) + TenantRows(rows[1..], tenant)
  }

  /** The tenant's versions are exactly 1..n, in order, and only version n is active. */
  ghost predicate VersionsDense(rows: Table, tenant: nat) {
    Dense(TenantRows(rows, tenant), tenant)
  }

  ghost predicate Dense(mine: Table, tenant: nat) {
    forall i :: 0 <= i < |mine| ==>
      mine[i].tenant == tenant && mine[i].version == i + 1 && (mine[i].active <==> i == |mine| - 1)
  }

  /** Retiring the newest version and adding the next keeps the versions dense. */
  lemma DenseExtended(mine: Table, row: Row)
    requires Dense(mine, row.tenant) && row.version == |mine| + 1 && row.active
    ensures Dense(Deactivate(mine, row.tenant) + [row], row.tenant)
  {
  }

  lemma {:induction false} TenantRowsAppend(rows: Table, row: Row, tenant: nat)
    ensures TenantRows(rows + [row], tenant)
      == TenantRows(rows, tenant) + (if row.tenant == tenant then [row] else [])
  {
    if rows == [] {
      assert rows + [row] == [row];
    } else {
      TenantRowsAppend(rows[1..], row, tenant);
      TenantRowsAppendStep(rows, row, tenant);
    }
  }

  lemma TenantRowsAppendStep(rows: Table, row: Row, tenant: nat)
    requires rows != []
    requires TenantRows(rows[1..] + [row], tenant)
             == TenantRows(rows[1..], tenant) + (if row.tenant == tenant then [row] else [])
    ensures TenantRows(rows + [row], tenant) == TenantRows(rows, tenant) + (if row.tenant == tenant then [row] else [])
  {
    TailOfAppend(rows, row);
    var head := if rows[0].tenant == tenant then [rows[0]] else [];
    var last := if row.tenant == tenant then [row] else [];
    assert TenantRows(rows, tenant) == head + TenantRows(rows[1..], tenant);
    assert TenantRows(rows + [row], tenant) == head + (TenantRows(rows[1..], tenant) + last);
  }

  lemma TailOfAppend(rows: Table, row: Row)
    requires rows != []
    ensures (rows + [row])[1..] == rows[1..] + [row] && (rows + [row])[0] == rows[0]
  {
  }

  lemma {:induction false} TenantRowsDeactivated(rows: Table, t: nat, tenant: nat)
    ensures TenantRows(Deactivate(rows, t), tenant)
      == if t == tenant then Deactivate(TenantRows(rows, tenant), tenant) else TenantRows(rows, tenant)
  {
    if rows != [] {
      assert Deactivate(rows, t)[1..] == Deactivate(rows[1..], t);
      TenantRowsDeactivated(rows[1..], t, tenant);
    }
  }

  lemma {:induction false} TenantRowsMember(rows: Table, tenant: nat, row: Row)
    ensures row in TenantRows(rows, tenant) <==> row in rows && row.tenant == tenant
  {
    if rows != [] {
      TenantRowsMember(rows[1..], tenant, row);
      assert rows == [rows[0]] + rows[1..];
    }
  }

  /** In a dense table the active row is the newest one; a tenant without rows has none. */
  lemma ActiveRowIsNewest(rows: Table, tenant: nat)
    requires VersionsDense(rows, tenant)
    ensures var mine := TenantRows(rows, tenant);
            ActiveRow(rows, tenant) == if mine == [] then None else Some(mine[|mine| - 1])
  {
    var mine := TenantRows(rows, tenant);
    var active := ActiveRow(rows, tenant);
    if active.Some? {
      TenantRowsMember(rows, tenant, active.value);
    }
    if mine != [] {
      TenantRowsMember(rows, tenant, mine[|mine| - 1]);
    }
  }

  /** An insert is refused exactly when the tenant already has a row that clashes with it. */
  lemma InsertRefused(unique: Uniqueness, rows: Table, row: Row)
    ensures Insert(unique, rows, row).None?
      <==> exists i :: 0 <= i < |TenantRows(rows, row.tenant)| && Clash(unique, TenantRows(rows, row.tenant)[i], row)
  {
    var mine := TenantRows(rows, row.tenant);
    if i :| 0 <= i < |rows| && Clash(unique, rows[i], row) {
      TenantRowsMember(rows, row.tenant, rows[i]);
      var k :| 0 <= k < |mine| && mine[k] == rows[i];
      assert Clash(unique, mine[k], row);
    }
    if k :| 0 <= k < |mine| && Clash(unique, mine[k], row) {
      TenantRowsMember(rows, row.tenant, mine[k]);
    }
  }

  /** A tenant that has any key cannot be given a first key again; one that has none gets version 1. */
  lemma CreateOnlyOnce(unique: Uniqueness, rows: Table, tenant: nat, kmsKeyId: KeyId, key: Bytes)
    requires unique.PerTenant? || VersionsDense(rows, tenant)
    ensures var after := Attempt(unique, rows, Create(tenant, kmsKeyId, key, NoFault));
            && (after.Some? <==> TenantRows(rows, tenant) == [])
            && (after.Some? ==> TenantRows(after.value, tenant) == [Row(tenant, 1, true, kmsKeyId, key)])
            && (after.Some? ==> forall t :: t != tenant ==> TenantRows(after.value, t) == TenantRows(rows, t))
  {
    var row := Row(tenant, 1, true, kmsKeyId, key);
    forall t ensures TenantRows(rows + [row], t) == TenantRows(rows, t) + (if t == tenant then [row] else []) {
      TenantRowsAppend(rows, row, t);
    }
    InsertRefused(unique, rows, row);
    if TenantRows(rows, tenant) != [] {
      TenantRowsMember(rows, tenant, TenantRows(rows, tenant)[0]);
      assert Clash(unique, TenantRows(rows, tenant)[0], row);
    }
  }

  /** Retiring a tenant's rows and appending one leaves every other tenant alone. */
  lemma AddedRow(rows: Table, row: Row)
    ensures TenantRows(Deactivate(rows, row.tenant) + [row], row.tenant)
            == Deactivate(TenantRows(rows, row.tenant), row.tenant) + [row]
    ensures forall other :: other != row.tenant ==>
              TenantRows(Deactivate(rows, row.tenant) + [row], other) == TenantRows(rows, other)
  {
    var off := Deactivate(rows, row.tenant);
    TenantRowsDeactivated(rows, row.tenant, row.tenant);
    TenantRowsAppend(off, row, row.tenant);
    forall other | other != row.tenant
      ensures TenantRows(off + [row], other) == TenantRows(rows, other)
    {
      TenantRowsDeactivated(rows, row.tenant, other);
      TenantRowsAppend(off, row, other);
    }
  }

  lemma CreateKeepsDense(unique: Uniqueness, rows: Table, op: Op, tenant: nat)
    requires VersionsDense(rows, tenant) && op.Create?
    ensures VersionsDense(Apply(unique, rows, op), tenant)
  {
    if op.fault == NoFault {
      if op.tenant == tenant {
        CreateOnlyOnce(unique, rows, tenant, op.kmsKeyId, op.encryptedKey);
      } else {
        TenantRowsAppend(rows, Row(op.tenant, 1, true, op.kmsKeyId, op.encryptedKey), tenant);
      }
    }
  }

  lemma RotateKeepsDense(unique: Uniqueness, rows: Table, op: Op, tenant: nat)
    requires VersionsDense(rows, tenant) && op.Rotate?
    ensures VersionsDense(Apply(unique, rows, op), tenant)
  {
    var row := Row(op.tenant, NextVersion(rows, op.tenant), true, op.kmsKeyId, op.encryptedKey);
    AddedRow(rows, row);
    if op.tenant == tenant {
      NextVersionIsLengthPlusOne(rows, tenant);
      DenseExtended(TenantRows(rows, tenant), row);
    }
  }

  lemma NextVersionIsLengthPlusOne(rows: Table, tenant: nat)
    requires VersionsDense(rows, tenant)
    ensures NextVersion(rows, tenant) == |TenantRows(rows, tenant)| + 1
  {
    ActiveRowIsNewest(rows, tenant);
  }

  /** One call keeps every tenant's versions dense, under either schema and any fault. */
  lemma ApplyKeepsDense(unique: Uniqueness, rows: Table, op: Op, tenant: nat)
    requires VersionsDense(rows, tenant)
    ensures VersionsDense(Apply(unique, rows, op), tenant)
  {
    match op
    case Create(_, _, _, _) => CreateKeepsDense(unique, rows, op, tenant);
    case Rotate(_, _, _, _) => RotateKeepsDense(unique, rows, op, tenant);
  }

  /** Over every run of creations and rotations each tenant's versions are 1..n, n the only
      active one. */
  lemma {:induction false} RunKeepsDense(unique: Uniqueness, rows: Table, ops: seq<Op>, tenant: nat)
    requires VersionsDense(rows, tenant)
    ensures VersionsDense(Run(unique, rows, ops), tenant)
    decreases |ops|
  {
    if ops != [] {
      ApplyKeepsDense(unique, rows, ops[0], tenant);
      RunKeepsDense(unique, Apply(unique, rows, ops[0]), ops[1..], tenant);
    }
  }

  /** Rotation with one row per version always works, and adds version n + 1. */
  lemma RotateAddsVersion(rows: Table, tenant: nat, kmsKeyId: KeyId, key: Bytes)
    requires VersionsDense(rows, tenant)
    ensures var mine := TenantRows(rows, tenant);
            var after := Attempt(PerVersion, rows, Rotate(tenant, kmsKeyId, key, NoFault));
            && after.Some?
            && TenantRows(after.value, tenant)
               == Deactivate(mine, tenant) + [Row(tenant, |mine| + 1, true, kmsKeyId, key)]
            && (forall other :: other != tenant ==> TenantRows(after.value, other) == TenantRows(rows, other))
  {
    NextVersionIsLengthPlusOne(rows, tenant);
    var row := Row(tenant, NextVersion(rows, tenant), true, kmsKeyId, key);
    NewVersionInserts(rows, row);
    AddedRow(rows, row);
  }

  /** The next version of a tenant clashes with none of its rows. */
  lemma NewVersionInserts(rows: Table, row: Row)
    requires VersionsDense(rows, row.tenant) && row.version == |TenantRows(rows, row.tenant)| + 1
    ensures Insert(PerVersion, Deactivate(rows, row.tenant), row) == Some(Deactivate(rows, row.tenant) + [row])
  {
    var off := Deactivate(rows, row.tenant);
    TenantRowsDeactivated(rows, row.tenant, row.tenant);
    InsertRefused(PerVersion, off, row);
  }

  /** Under the declared UNIQUE(tenant_id), a rotation succeeds exactly for tenants that have no
      key yet: no tenant that has a key can ever rotate it. */
  lemma DeclaredSchemaBlocksRotation(rows: Table, tenant: nat, kmsKeyId: KeyId, key: Bytes)
    ensures Attempt(PerTenant, rows, Rotate(tenant, kmsKeyId, key, NoFault)).Some? <==> TenantRows(rows, tenant) == []
  {
    var off := Deactivate(rows, tenant);
    var row := Row(tenant, NextVersion(rows, tenant), true, kmsKeyId, key);
    TenantRowsDeactivated(rows, tenant, tenant);
    InsertRefused(PerTenant, off, row);
    if TenantRows(rows, tenant) != [] {
      TenantRowsMember(off, tenant, TenantRows(off, tenant)[0]);
      assert Clash(PerTenant, TenantRows(off, tenant)[0], row);
    }
  }

  /** So under the declared schema no run ever shows a tenant with a second version. */
  lemma {:induction false} DeclaredSchemaKeepsOneVersion(ops: seq<Op>, rows: Table, tenant: nat)
    requires |TenantRows(rows, tenant)| <= 1
    ensures |TenantRows(Run(PerTenant, rows, ops), tenant)| <= 1
  {
    if ops != [] {
      var op := ops[0];
      var after := Attempt(PerTenant, rows, op);
      if after.Some? {
        match op
        case Create(t, id, key, _) =>
          var row := Row(t, 1, true, id, key);
          CreateOnlyOnce(PerTenant, rows, t, id, key);
          TenantRowsAppend(rows, row, tenant);
        case Rotate(t, id, key, _) =>
          DeclaredSchemaBlocksRotation(rows, t, id, key);
          TenantRowsDeactivated(rows, t, tenant);
          TenantRowsAppend(Deactivate(rows, t), Row(t, NextVersion(rows, t), true, id, key), tenant);
      }
      DeclaredSchemaKeepsOneVersion(ops[1..], Apply(PerTenant, rows, op), tenant);
    }
  }
}

/** The batched decision in terms of LakeKeeper's replies and the names of the request alone:
    which resources are in the batch, operation by operation. */
module TrinoDecision {
  import opened Wrappers
  import opened Lakekeeper
  import opened TrinoPolicy
  import opened TrinoBatch
  import opened TrinoBatchRefinement

  // --- What LakeKeeper says ---

  /** LakeKeeper, asked for this check alone in the catalog's warehouse, allows it. */
  ghost predicate Says(q: Query, catalog: string, check: string -> Check) {
    && catalog in q.cfg.catalogs
    && var c := q.cfg.catalogs[catalog];
       && c.lakekeeperId in q.cfg.maxBatch
       && q.world.warehouseId(c.lakekeeperId, c.warehouse).Some?
       && q.world.send(c.lakekeeperId, [check(q.world.warehouseId(c.lakekeeperId, c.warehouse).value)]) == [true]
  }

  ghost predicate WarehouseSays(q: Query, catalog: string, action: Action) {
    Says(q, catalog, wh => WarehouseCheck(wh, "oidc~" + q.trinoUser, action))
  }

  ghost predicate NamespaceSays(q: Query, catalog: string, schema: string, action: Action) {
    Says(q, catalog, wh => NamespaceCheck(wh, Parts(schema), "oidc~" + q.trinoUser, action))
  }

  ghost predicate TableSays(q: Query, catalog: string, schema: string, table: string, action: Action) {
    Says(q, catalog, wh => TableCheck(wh, Parts(schema), table, "oidc~" + q.trinoUser, action))
  }

  ghost predicate ViewSays(q: Query, catalog: string, schema: string, view: string, action: Action) {
    Says(q, catalog, wh => ViewCheck(wh, Parts(schema), view, "oidc~" + q.trinoUser, action))
  }

  // --- Schemas and namespaces ---

  function JoinDots(parts: seq<string>): string
    requires parts != []
  {
    if |parts| == 1 then parts[0] else parts[0] + "." + JoinDots(parts[1..])
  }

  ghost predicate Dotted(parts: seq<string>, schema: string) {
    && parts != [] && JoinDots(parts) == schema
    && forall k | 0 <= k < |parts| :: '.' !in parts[k]
  }

  lemma {:induction false} SplitIsDotted(s: string)
    ensures Dotted(Split(s, '.'), s)
  {
    if s != "" {
      SplitIsDotted(s[1..]);
      var rest := Split(s[1..], '.');
      assert s == [s[0]] + s[1..];
      if s[0] == '.' {
        assert ([""] + rest)[1..] == rest;
      } else {
        var parts := [[s[0]] + rest[0]] + rest[1..];
        assert parts[1..] == rest[1..];
        assert forall k | 1 <= k < |parts| :: parts[k] == rest[k];
      }
    }
  }

  lemma {:induction false} DottedOnce(a: seq<string>, b: seq<string>, s: string)
    requires Dotted(a, s) && Dotted(b, s)
    ensures a == b
  {
    var x := if |a| == 1 then "" else "." + JoinDots(a[1..]);
    var y := if |b| == 1 then "" else "." + JoinDots(b[1..]);
    assert a[0] + x == s == b[0] + y;
    HeadOnce(a[0], x, b[0], y);
    if |a| > 1 && |b| > 1 {
      assert x[1..] == JoinDots(a[1..]) && y[1..] == JoinDots(b[1..]);
      DottedOnce(a[1..], b[1..], x[1..]);
      assert a == [a[0]] + a[1..] && b == [b[0]] + b[1..];
    }
  }

  lemma HeadOnce(a: string, x: string, b: string, y: string)
    requires a + x == b + y && '.' !in a && '.' !in b
    requires (x != "" ==> x[0] == '.') && (y != "" ==> y[0] == '.')
    ensures a == b && x == y
  {
    var s, t := a + x, b + y;
    assert forall i | 0 <= i < |a| :: s[i] == a[i] && a[i] in a;
    assert forall i | 0 <= i < |b| :: t[i] == b[i] && b[i] in b;
    assert x != "" ==> s[|a|] == x[0];
    assert y != "" ==> t[|b|] == y[0];
    assert |a| == |b|;
    assert a == s[..|a|] && b == t[..|b|] && x == s[|a|..] && y == t[|b|..];
  }

  /** The namespace of a schema: the one way to cut its name at the dots. */
  ghost function Parts(schema: string): (parts: seq<string>)
    ensures Dotted(parts, schema)
  {
    assert exists parts :: Dotted(parts, schema) by {
      SplitIsDotted(schema);
    }
    var parts :| Dotted(parts, schema);
    parts
  }

  lemma PartsExact(schema: string)
    ensures NamespaceFor(schema) == Parts(schema)
  {
    SplitIsDotted(schema);
    DottedOnce(Split(schema, '.'), Parts(schema), schema);
  }

  // --- The names the policies know ---

  predicate SystemName(schema: string) {
    schema in {"information_schema", "schema_discovery", "system"}
  }

  /** The tables of a managed catalog's system schemas that `get_config` opens. */
  predicate SystemListed(schema: string, table: string) {
    || (schema == "information_schema" && table in {"columns", "schemata", "tables", "views"})
    || (schema == "schema_discovery" && table in {"discovery", "shallow_discovery"})
    || (schema == "system" && table == "iceberg_tables")
  }

  /** The tables of the catalog "system" that are open to everyone. */
  predicate DefaultListed(schema: string, table: string) {
    || schema == "jdbc"
    || (schema == "metadata" && table in {
        "analyze_properties", "catalogs", "column_properties", "materialized_views", "schema_properties",
        "table_comments", "table_properties"})
    || (schema == "information_schema" && table in {"columns", "schemata", "tables", "views"})
    || (schema == "runtime" && table == "queries")
  }

  const SUFFIXES: set<string> := {
    "$properties", "$history", "$metadata_log_entries", "$snapshots", "$manifests", "$all_manifests", "$partitions",
    "$files", "$entries", "$all_entries", "$refs"}

  /** The table is the Iceberg metadata table of base. */
  ghost predicate MetadataOf(table: string, base: string) {
    exists suffix :: suffix in SUFFIXES && table == base + suffix
  }

  ghost predicate Metadata(table: string) {
    exists base :: MetadataOf(table, base)
  }

  // --- Which resources are permitted ---

  ghost predicate ListsTables(q: Query) {
    q.op == FilterTables || q.op == FilterColumns
  }

  /** LakeKeeper grants the table, its base table, or the view. */
  ghost predicate ObjectGranted(q: Query, catalog: string, schema: string, table: string) {
    if ListsTables(q) then
      || (!Metadata(table) && TableSays(q, catalog, schema, table, GetMetadata))
      || ViewSays(q, catalog, schema, table, GetMetadata)
    else
      && q.op == SelectFromColumns
      && (|| (!Metadata(table) && TableSays(q, catalog, schema, table, ReadData))
          || (exists base :: MetadataOf(table, base) && TableSays(q, catalog, schema, base, GetMetadata))
          || ViewSays(q, catalog, schema, table, Select))
  }

  ghost predicate Admin(q: Query) {
    exists k :: 0 <= k < |q.cfg.admins| && q.cfg.admins[k] == q.trinoUser
  }

  /** Resources of a catalog LakeKeeper manages. */
  ghost predicate ManagedPermits(q: Query, r: Resource) {
    match r
    case Table(catalog, schema, table, _, _) =>
      || ObjectGranted(q, catalog, schema, table)
      || (&& q.op != FilterSchemas && SystemName(schema)
          && (Admin(q) || (SystemListed(schema, table) && WarehouseSays(q, catalog, GetConfig))))
    case Schema(catalog, schema) =>
      && q.op == FilterSchemas
      && (if SystemName(schema) then Admin(q) || WarehouseSays(q, catalog, GetConfig)
          else NamespaceSays(q, catalog, schema, GetMetadata))
    case _ => false
  }

  /** Resources of any other catalog. */
  ghost predicate UnmanagedPermits(q: Query, r: Resource) {
    match r
    case Table(catalog, schema, table, _, _) =>
      || q.cfg.allowUnmanaged
      || (q.op != FilterSchemas && catalog == "system" && (Admin(q) || DefaultListed(schema, table)))
    case Schema(catalog, schema) =>
      || q.cfg.allowUnmanaged
      || (&& q.op == FilterSchemas && catalog == "system"
          && (Admin(q) || schema in {"jdbc", "metadata", "information_schema", "runtime"}))
    case Catalog(_) => q.cfg.allowUnmanaged
    case _ => false
  }

  ghost predicate InManagedCatalog(q: Query, r: Resource) {
    match r
    case Table(catalog, _, _, _, _) => catalog in q.cfg.catalogs
    case Schema(catalog, _) => catalog in q.cfg.catalogs
    case Catalog(name) => name in q.cfg.catalogs
    case _ => false
  }

  ghost predicate Permits(q: Query, r: Resource) {
    if InManagedCatalog(q, r) then ManagedPermits(q, r) else UnmanagedPermits(q, r)
  }

  // --- The policies' predicates are these ---

  lemma RequireExact(q: Query, catalog: string, schema: string, name: string, action: Action)
    ensures RequireCatalog(q, catalog, action) <==> WarehouseSays(q, catalog, action)
    ensures RequireSchema(q, catalog, schema, action) <==> NamespaceSays(q, catalog, schema, action)
    ensures RequireTable(q, catalog, schema, name, action) <==> TableSays(q, catalog, schema, name, action)
    ensures RequireView(q, catalog, schema, name, action) <==> ViewSays(q, catalog, schema, name, action)
  {
    PartsExact(schema);
  }

  lemma SuffixesSame(suffix: string)
    ensures suffix in SUFFIXES <==> suffix in METADATA_SUFFIXES
  {
  }

  lemma MetadataExact(table: string, base: string)
    ensures base in BaseNames(table) <==> MetadataOf(table, base)
    ensures IsMetadataTable(table) <==> Metadata(table)
  {
    BaseExact(table, base);
    if IsMetadataTable(table) {
      var k :| 0 <= k < |METADATA_SUFFIXES| && EndsWith(table, METADATA_SUFFIXES[k]);
      var b := table[..|table| - |METADATA_SUFFIXES[k]|];
      assert b in BaseNames(table);
      BaseExact(table, b);
    }
    if b :| MetadataOf(table, b) {
      BaseExact(table, b);
    }
  }

  lemma BaseExact(table: string, base: string)
    ensures base in BaseNames(table) <==> MetadataOf(table, base)
  {
    forall suffix
      ensures suffix in SUFFIXES <==> suffix in METADATA_SUFFIXES
    {
      SuffixesSame(suffix);
    }
    BaseOf(METADATA_SUFFIXES, table, base);
  }

  lemma BaseOf(suffixes: seq<string>, table: string, base: string)
    ensures (exists suffix :: suffix in suffixes && table == base + suffix)
            <==> exists k :: 0 <= k < |suffixes| && EndsWith(table, suffixes[k])
                             && table[..|table| - |suffixes[k]|] == base
  {
    if suffix :| suffix in suffixes && table == base + suffix {
      var k :| 0 <= k < |suffixes| && suffixes[k] == suffix;
      assert EndsWith(table, suffixes[k]) && table[..|table| - |suffixes[k]|] == base;
    }
    if k :| 0 <= k < |suffixes| && EndsWith(table, suffixes[k]) && table[..|table| - |suffixes[k]|] == base {
      assert table == base + suffixes[k];
    }
  }

  lemma AdminExact(q: Query)
    ensures IsAdmin(q) <==> Admin(q)
  {
  }

  /** `allow` on a table of a managed catalog. */
  lemma ManagedTablePermits(q: Query, r: Resource)
    requires BatchOperation(q.op) && r.Table? && Managed(q, r.catalog) && r.catalog != SYSTEM_CATALOG
    ensures Allow(q, r) <==> ManagedPermits(q, r)
  {
    AdminExact(q);
    TablePermits(q, r);
    SystemTablePermits(q, r);
    assert !AllowDefault(q, r) && !AllowUnmanaged(q, r);
  }

  /** What LakeKeeper grants on the object itself. */
  lemma TablePermits(q: Query, r: Resource)
    requires BatchOperation(q.op) && r.Table?
    ensures AllowTable(q, r) || AllowView(q, r) <==> ObjectGranted(q, r.catalog, r.schema, r.table)
  {
    MetadataExact(r.table, r.table);
    RequireExact(q, r.catalog, r.schema, r.table, GetMetadata);
    RequireExact(q, r.catalog, r.schema, r.table, ReadData);
    RequireExact(q, r.catalog, r.schema, r.table, Select);
    forall base
      ensures base in BaseNames(r.table) <==> MetadataOf(r.table, base)
      ensures RequireTable(q, r.catalog, r.schema, base, GetMetadata)
              <==> TableSays(q, r.catalog, r.schema, base, GetMetadata)
    {
      MetadataExact(r.table, base);
      RequireExact(q, r.catalog, r.schema, base, GetMetadata);
    }
  }

  /** What opens the tables of system schemas. */
  lemma SystemTablePermits(q: Query, r: Resource)
    requires BatchOperation(q.op) && r.Table?
    ensures AllowSchema(q, r) <==>
            && q.op != FilterSchemas && SystemName(r.schema)
            && (Admin(q) || (SystemListed(r.schema, r.table) && WarehouseSays(q, r.catalog, GetConfig)))
  {
    AdminExact(q);
    RequireExact(q, r.catalog, r.schema, r.table, GetConfig);
    SystemNames(r.schema, r.table);
  }

  lemma SystemNames(schema: string, table: string)
    ensures SystemSchema(schema) <==> SystemName(schema)
    ensures SystemListed(schema, table) <==>
            || (schema == "information_schema" && table in INFORMATION_SCHEMA_TABLES)
            || (schema == "schema_discovery" && table in SCHEMA_DISCOVERY_TABLES)
            || (schema == "system" && table in SYSTEM_SCHEMA_TABLES)
    ensures SystemListed(schema, table) ==> SystemName(schema)
  {
  }

  lemma ManagedSchemaPermits(q: Query, r: Resource)
    requires BatchOperation(q.op) && r.Schema? && Managed(q, r.catalog) && r.catalog != SYSTEM_CATALOG
    ensures Allow(q, r) <==> ManagedPermits(q, r)
  {
    AdminExact(q);
    RequireExact(q, r.catalog, r.schema, "", GetConfig);
    RequireExact(q, r.catalog, r.schema, "", GetMetadata);
  }

  lemma DefaultPermits(q: Query, r: Resource)
    requires BatchOperation(q.op) && (r.Table? || r.Schema?)
    ensures AllowDefault(q, r) <==>
            && r.catalog == "system"
            && if r.Table? then q.op != FilterSchemas && (Admin(q) || DefaultListed(r.schema, r.table))
               else && q.op == FilterSchemas
                    && (Admin(q) || r.schema in {"jdbc", "metadata", "information_schema", "runtime"})
  {
    AdminExact(q);
  }

  /** LakeKeeper grants nothing in a catalog it does not manage. */
  lemma NothingUnmanaged(q: Query, r: Resource)
    requires BatchOperation(q.op) && (r.Table? || r.Schema?) && !Managed(q, r.catalog)
    ensures !AllowTable(q, r) && !AllowView(q, r)
    ensures AllowSchema(q, r) <==> AllowAdminSystemSchemas(q, r)
  {
  }

  lemma UnmanagedResourcePermits(q: Query, r: Resource)
    requires BatchOperation(q.op) && (r.Table? || r.Schema?) && !Managed(q, r.catalog)
    ensures Allow(q, r) && !Gap(q, r) <==> UnmanagedPermits(q, r)
  {
    NothingUnmanaged(q, r);
    DefaultPermits(q, r);
  }

  /** `allow`, outside the gap, is what LakeKeeper's replies and the listed names permit. */
  lemma AllowPermits(q: Query, r: Resource)
    requires BatchOperation(q.op) && !Managed(q, SYSTEM_CATALOG)
    ensures Allow(q, r) && !Gap(q, r) <==> Permits(q, r)
  {
    if r.Table? || r.Schema? {
      if !Managed(q, r.catalog) {
        UnmanagedResourcePermits(q, r);
      } else if r.Table? {
        ManagedTablePermits(q, r);
      } else {
        ManagedSchemaPermits(q, r);
      }
    }
  }

  // --- The batch ---

  /** The whole decision: with full replies, index i is in the batch if and only if LakeKeeper's
      reply about resource i, or one of the listed names, permits it. */
  lemma {:induction false} DecisionExact(q: Query, rs: seq<Resource>, i: nat)
    requires Hypotheses(q, rs) && BatchOperation(q.op) && i < |rs| && !SingleTable(q, rs)
    ensures InBatch(q, rs, i) <==> Permits(q, rs[i])
  {
    BatchExact(q, rs, i);
    AllowPermits(q, rs[i]);
  }

  /** Any other operation is decided by its own rules, resource by resource. */
  lemma {:induction false} OtherExact(q: Query, rs: seq<Resource>, i: nat)
    requires q.op.OtherOperation? && i < |rs|
    ensures InBatch(q, rs, i) <==> q.world.other(q.op.name, rs[i])
  {
    if BySlowPath(q, rs, i) {
      SlowDecides(q, rs, i);
    }
  }

  lemma {:induction false} SlowDecides(q: Query, rs: seq<Resource>, i: nat)
    requires i < |rs| && BySlowPath(q, rs, i)
    ensures LakekeeperDecides(q, rs[i])
  {
    var catalog :| catalog in q.cfg.catalogs && (i in SlowTables(q, rs, catalog) || i in SlowSchemas(q, rs, catalog));
    if i in SlowSchemas(q, rs, catalog) {
      assert exists j :: 0 <= j < |SchemaEntries(q, rs, catalog)| && SchemaEntries(q, rs, catalog)[j] == i;
    } else {
      SlowTableEntry(q, rs, catalog, i);
    }
  }

  lemma {:induction false} SlowTableEntry(q: Query, rs: seq<Resource>, catalog: string, i: nat)
    requires i in SlowTables(q, rs, catalog)
    ensures i in TableEntries(q, rs, catalog)
  {
    TwiceEntries(TableEntries(q, rs, catalog), i);
  }

  lemma {:induction false} TwiceEntries(entries: seq<nat>, i: nat)
    ensures i in Twice(entries) <==> i in entries
  {
    if entries != [] {
      var n := |entries| - 1;
      TwiceEntries(entries[..n], i);
      assert entries == entries[..n] + [entries[n]];
    }
  }

  /** What LakeKeeper does not decide object by object, needs no hypothesis about its replies:
      system schemas and their tables, metadata tables, and everything in other catalogs. */
  lemma {:induction false} UndecidedExact(q: Query, rs: seq<Resource>, i: nat)
    requires BatchOperation(q.op) && !Managed(q, SYSTEM_CATALOG) && i < |rs| && !LakekeeperDecides(q, rs[i])
    requires !SingleTable(q, rs)
    ensures InBatch(q, rs, i) <==> Permits(q, rs[i])
  {
    var r := rs[i];
    AllowPermits(q, r);
    if BySlowPath(q, rs, i) {
      SlowDecides(q, rs, i);
    }
    if ByFastPath(q, rs, r) {
      CoveredIsManaged(q, rs, r);
    }
    if BatchManaged(q, r) {
      RestOfManaged(q, r);
    } else {
      UnmanagedExact(q, rs, i);
    }
  }

  /** A table of a managed catalog's system schema, in full. */
  lemma {:induction false} SystemTableExact(q: Query, rs: seq<Resource>, i: nat)
    requires !Managed(q, SYSTEM_CATALOG) && i < |rs| && rs[i].Table? && rs[i].catalog in q.cfg.catalogs
    requires BatchOperation(q.op) && q.op != FilterSchemas && !SingleTable(q, rs) && SystemName(rs[i].schema)
    ensures InBatch(q, rs, i) <==>
            || Admin(q)
            || (SystemListed(rs[i].schema, rs[i].table) && WarehouseSays(q, rs[i].catalog, GetConfig))
            || ObjectGranted(q, rs[i].catalog, rs[i].schema, rs[i].table)
  {
    UndecidedExact(q, rs, i);
  }

  /** FilterColumns on one table: all its columns or none. */
  lemma {:induction false} ColumnsExact(q: Query, rs: seq<Resource>, i: nat)
    requires Hypotheses(q, rs) && SingleTable(q, rs)
    ensures InBatch(q, rs, i) <==>
            i < |rs[0].columns| && (Permits(q, rs[0]) || (Admin(q) && SystemName(rs[0].schema)))
  {
    var r := rs[0];
    SingleTableAllOrNothing(q, rs, i);
    AllowPermits(q, r);
    AdminExact(q);
  }
}

/** The per-resource decision `allow` for Trino's four batch operations: the reference
    the batched rules have to agree with. */
module TrinoPolicy {
  import opened Wrappers
  import opened Lakekeeper

  datatype Operation =
    | FilterTables
    | FilterColumns
    | SelectFromColumns
    | FilterSchemas
    | OtherOperation(name: string)

  /** Trino sends a resource with exactly one of these keys. */
  datatype Resource =
    | Table(catalog: string, schema: string, table: string, columns: seq<string>, column: Option<string>)
    | Schema(catalog: string, schema: string)
    | Catalog(name: string)
    | Function(catalog: string, function_: string)
    | User(user: string)

  datatype CatalogConfig = CatalogConfig(lakekeeperId: string, warehouse: string)

  /** `catalogs` is `configuration.trino_catalog` by name, `maxBatch` the configured
      LakeKeeper instances with their `max_batch_check_size`. */
  datatype Config = Config(
    catalogs: map<string, CatalogConfig>,
    maxBatch: map<string, int>,
    admins: seq<string>,
    allowUnmanaged: bool)

  /** The outside world during one decision. `other` stands for the `allow` rules of the
      operations that have no batch handling. */
  datatype World = World(
    send: (string, seq<Check>) -> seq<bool>,
    warehouseId: (string, string) -> Option<string>,
    other: (string, Resource) -> bool)

  /** Everything in `input` and `data` except the resource. */
  datatype Query = Query(cfg: Config, world: World, trinoUser: string, op: Operation)

  const SYSTEM_CATALOG := "system"
  const SYSTEM_SCHEMAS: seq<string> := ["information_schema", "schema_discovery", "system"]
  const INFORMATION_SCHEMA_TABLES: seq<string> := ["columns", "schemata", "tables", "views"]
  const SCHEMA_DISCOVERY_TABLES: seq<string> := ["discovery", "shallow_discovery"]
  const SYSTEM_SCHEMA_TABLES: seq<string> := ["iceberg_tables"]
  const METADATA_TABLES: seq<string> := [
    "analyze_properties", "catalogs", "column_properties", "materialized_views",
    "schema_properties", "table_comments", "table_properties"]
  const METADATA_SUFFIXES: seq<string> := [
    "$properties", "$history", "$metadata_log_entries", "$snapshots", "$manifests",
    "$all_manifests", "$partitions", "$files", "$entries", "$all_entries", "$refs"]

  // --- Identity and names ---

  function LakekeeperUser(q: Query): string {
    "oidc~" + q.trinoUser
  }

  predicate IsAdmin(q: Query) {
    q.trinoUser in q.cfg.admins
  }

  predicate Managed(q: Query, catalog: string) {
    catalog in q.cfg.catalogs
  }

  predicate SystemSchema(schema: string) {
    schema in SYSTEM_SCHEMAS
  }

  predicate TableOperation(op: Operation) {
    op.FilterTables? || op.FilterColumns? || op.SelectFromColumns?
  }

  predicate BatchOperation(op: Operation) {
    TableOperation(op) || op.FilterSchemas?
  }

  function Split(s: string, sep: char): (parts: seq<string>)
    ensures |parts| >= 1
  {
    if s == "" then [""]
    else
      var rest := Split(s[1..], sep);
      if s[0] == sep then [""] + rest
      else [[s[0]] + rest[0]] + rest[1..]
  }

  function NamespaceFor(schema: string): seq<string> {
    Split(schema, '.')
  }

  predicate EndsWith(s: string, suffix: string) {
    |suffix| <= |s| && s[|s| - |suffix|..] == suffix
  }

  predicate IsMetadataTable(name: string) {
    exists k :: 0 <= k < |METADATA_SUFFIXES| && EndsWith(name, METADATA_SUFFIXES[k])
  }

  /** All values `split_metadata_table_name` could take. */
  function BaseNames(name: string): set<string> {
    set k | 0 <= k < |METADATA_SUFFIXES| && EndsWith(name, METADATA_SUFFIXES[k])
      :: name[..|name| - |METADATA_SUFFIXES[k]|]
  }

  // --- One check per HTTP request ---

  function Post(q: Query, lakekeeperId: string, checks: seq<Check>): seq<bool> {
    if lakekeeperId in q.cfg.maxBatch then q.world.send(lakekeeperId, checks) else []
  }

  predicate Granted(q: Query, lakekeeperId: string, check: Check) {
    var results := Post(q, lakekeeperId, [check]);
    |results| == 1 && results[0]
  }

  /** LakeKeeper instance and warehouse id behind a managed catalog, when known. */
  function WarehouseOf(q: Query, catalog: string): Option<(string, string)> {
    if catalog !in q.cfg.catalogs then None
    else
      var c := q.cfg.catalogs[catalog];
      match q.world.warehouseId(c.lakekeeperId, c.warehouse)
      case None => None
      case Some(id) => Some((c.lakekeeperId, id))
  }

  predicate RequireCatalog(q: Query, catalog: string, action: Action) {
    match WarehouseOf(q, catalog)
    case None => false
    case Some((lk, wh)) => Granted(q, lk, WarehouseCheck(wh, LakekeeperUser(q), action))
  }

  predicate RequireSchema(q: Query, catalog: string, schema: string, action: Action) {
    match WarehouseOf(q, catalog)
    case None => false
    case Some((lk, wh)) =>
      Granted(q, lk, NamespaceCheck(wh, NamespaceFor(schema), LakekeeperUser(q), action))
  }

  predicate RequireTable(q: Query, catalog: string, schema: string, table: string, action: Action) {
    match WarehouseOf(q, catalog)
    case None => false
    case Some((lk, wh)) =>
      Granted(q, lk, TableCheck(wh, NamespaceFor(schema), table, LakekeeperUser(q), action))
  }

  predicate RequireView(q: Query, catalog: string, schema: string, view: string, action: Action) {
    match WarehouseOf(q, catalog)
    case None => false
    case Some((lk, wh)) =>
      Granted(q, lk, ViewCheck(wh, NamespaceFor(schema), view, LakekeeperUser(q), action))
  }

  // --- allow ---

  predicate AllowSystemTable(schema: string, table: string) {
    || schema == "jdbc"
    || (schema == "metadata" && table in METADATA_TABLES)
    || (schema == "information_schema" && table in INFORMATION_SCHEMA_TABLES)
    || (schema == "runtime" && table == "queries")
  }

  predicate AllowDefault(q: Query, r: Resource) {
    || (q.op.FilterSchemas? && r.Schema? && r.catalog == SYSTEM_CATALOG
        && (IsAdmin(q) || r.schema in ["jdbc", "metadata", "information_schema", "runtime"]))
    || (TableOperation(q.op) && r.Table? && r.catalog == SYSTEM_CATALOG
        && (IsAdmin(q) || AllowSystemTable(r.schema, r.table)))
  }

  predicate AllowTableInSystemSchema(q: Query, r: Resource) {
    && TableOperation(q.op) && r.Table?
    && (|| (r.schema == "information_schema" && r.table in INFORMATION_SCHEMA_TABLES)
        || (r.schema == "schema_discovery" && r.table in SCHEMA_DISCOVERY_TABLES)
        || (r.schema == "system" && r.table in SYSTEM_SCHEMA_TABLES))
    && RequireCatalog(q, r.catalog, GetConfig)
  }

  predicate AllowAdminSystemSchemas(q: Query, r: Resource) {
    && IsAdmin(q)
    && ((q.op.FilterSchemas? && r.Schema?) || (TableOperation(q.op) && r.Table?))
    && SystemSchema(r.schema)
  }

  predicate AllowSchema(q: Query, r: Resource) {
    || AllowTableInSystemSchema(q, r)
    || (q.op.FilterSchemas? && r.Schema? && !SystemSchema(r.schema)
        && RequireSchema(q, r.catalog, r.schema, GetMetadata))
    || (q.op.FilterSchemas? && r.Schema? && SystemSchema(r.schema) && RequireCatalog(q, r.catalog, GetConfig))
    || AllowAdminSystemSchemas(q, r)
  }

  predicate AllowTable(q: Query, r: Resource) {
    && r.Table?
    && (|| ((q.op.FilterTables? || q.op.FilterColumns?) && !IsMetadataTable(r.table)
            && RequireTable(q, r.catalog, r.schema, r.table, GetMetadata))
        || (q.op.SelectFromColumns? && !IsMetadataTable(r.table)
            && RequireTable(q, r.catalog, r.schema, r.table, ReadData))
        || (q.op.SelectFromColumns?
            && exists base :: base in BaseNames(r.table)
                              && RequireTable(q, r.catalog, r.schema, base, GetMetadata)))
  }

  predicate AllowView(q: Query, r: Resource) {
    && r.Table?
    && (|| ((q.op.FilterTables? || q.op.FilterColumns?)
            && RequireView(q, r.catalog, r.schema, r.table, GetMetadata))
        || (q.op.SelectFromColumns? && RequireView(q, r.catalog, r.schema, r.table, Select)))
  }

  /** `_resource_catalog_name`: undefined for a user resource. */
  function ResourceCatalog(r: Resource): Option<string> {
    match r
    case Table(c, _, _, _, _) => Some(c)
    case Schema(c, _) => Some(c)
    case Catalog(c) => Some(c)
    case Function(c, _) => Some(c)
    case User(_) => None
  }

  predicate AllowUnmanaged(q: Query, r: Resource) {
    q.cfg.allowUnmanaged && ResourceCatalog(r).Some? && !Managed(q, ResourceCatalog(r).value)
  }

  /** `allow_managed` is an extension point that nothing sets; the catalog rules match
      none of the batch operations. */
  predicate Allow(q: Query, r: Resource) {
    match q.op
    case OtherOperation(name) => q.world.other(name, r)
    case _ => AllowDefault(q, r) || AllowSchema(q, r) || AllowTable(q, r) || AllowView(q, r) || AllowUnmanaged(q, r)
  }

  // --- A name has at most one metadata suffix ---

  ghost predicate DollarFirst(s: string) {
    |s| > 0 && s[0] == '$' && forall i | 0 < i < |s| :: s[i] != '$'
  }

  lemma SuffixesStartWithDollar(k: nat)
    requires k < |METADATA_SUFFIXES|
    ensures DollarFirst(METADATA_SUFFIXES[k])
  {
  }

  lemma DollarSuffixUnique(name: string, a: string, b: string)
    requires DollarFirst(a) && DollarFirst(b) && EndsWith(name, a) && EndsWith(name, b)
    ensures a == b
  {
    var i, j := |name| - |a|, |name| - |b|;
    assert name[i] == a[0] && name[j] == b[0];
  }

  /** `split_metadata_table_name` is single-valued and defined exactly on the metadata
      tables, and the base name is the name with its one suffix removed. */
  lemma BaseNameUnique(name: string)
    ensures IsMetadataTable(name) ==> exists base ::
              && BaseNames(name) == {base}
              && exists k :: 0 <= k < |METADATA_SUFFIXES| && name == base + METADATA_SUFFIXES[k]
    ensures !IsMetadataTable(name) ==> BaseNames(name) == {}
  {
    if IsMetadataTable(name) {
      var k :| 0 <= k < |METADATA_SUFFIXES| && EndsWith(name, METADATA_SUFFIXES[k]);
      var base := name[..|name| - |METADATA_SUFFIXES[k]|];
      assert name == base + METADATA_SUFFIXES[k];
      assert base in BaseNames(name);
      forall m | 0 <= m < |METADATA_SUFFIXES| && EndsWith(name, METADATA_SUFFIXES[m])
        ensures METADATA_SUFFIXES[m] == METADATA_SUFFIXES[k]
      {
        SuffixesStartWithDollar(k);
        SuffixesStartWithDollar(m);
        DollarSuffixUnique(name, METADATA_SUFFIXES[m], METADATA_SUFFIXES[k]);
      }
      assert BaseNames(name) == {base};
    }
  }
}

/** The batched decision: fast paths for broad grants, one evaluation per unmanaged
    catalog, and one chunked list of table/view checks per managed catalog. */
module TrinoBatch {
  import opened Wrappers
  import opened Lakekeeper
  import opened TrinoPolicy
  import Order

  function BatchAction(op: Operation): Action
    requires TableOperation(op)
  {
    if op.SelectFromColumns? then ReadData else GetMetadata
  }

  /** `batch_check_results` and its cached variant, for one LakeKeeper instance. */
  function BatchResults(q: Query, lakekeeperId: string, checks: seq<Check>): seq<bool> {
    if lakekeeperId !in q.cfg.maxBatch || checks == [] then []
    else BatchCheckResults((cs: seq<Check>) => q.world.send(lakekeeperId, cs), q.cfg.maxBatch[lakekeeperId], checks)
  }

  // --- Fast paths ---

  predicate WarehouseBroad(q: Query, catalog: string) {
    match WarehouseOf(q, catalog)
    case None => false
    case Some((lk, wh)) => At(BatchResults(q, lk, [WarehouseCheck(wh, LakekeeperUser(q), ListEverything)]), 0)
  }

  /** The schema a resource contributes to the namespace probe of one catalog. */
  predicate ProbesSchema(q: Query, r: Resource, catalog: string) {
    && ((TableOperation(q.op) && r.Table?) || (q.op.FilterSchemas? && r.Schema?))
    && r.catalog == catalog && !SystemSchema(r.schema)
  }

  function DistinctSchemas(q: Query, rs: seq<Resource>, catalog: string): set<string> {
    set i | 0 <= i < |rs| && ProbesSchema(q, rs[i], catalog) :: rs[i].schema
  }

  function NamespaceChecks(wh: string, user: string, names: seq<string>, action: Action): (checks: seq<Check>)
    ensures |checks| == |names|
    ensures forall i | 0 <= i < |names| ::
              checks[i] == NamespaceCheck(wh, NamespaceFor(names[i]), user, action)
  {
    seq(|names|, i requires 0 <= i < |names| => NamespaceCheck(wh, NamespaceFor(names[i]), user, action))
  }

  /** `object.get(_namespace_broad, catalog, set())`. */
  function NamespaceBroad(q: Query, rs: seq<Resource>, catalog: string): set<string> {
    if WarehouseBroad(q, catalog) then {}
    else
      match WarehouseOf(q, catalog)
      case None => {}
      case Some((lk, wh)) =>
        var names := Order.SortSet(DistinctSchemas(q, rs, catalog));
        var results := BatchResults(q, lk, NamespaceChecks(wh, LakekeeperUser(q), names, ListEverything));
        set i | 0 <= i < |names| && At(results, i) :: names[i]
  }

  predicate FastPathCovers(q: Query, rs: seq<Resource>, r: Resource) {
    && ((r.Table? && (q.op.FilterTables? || q.op.FilterColumns?)) || (r.Schema? && q.op.FilterSchemas?))
    && (WarehouseBroad(q, r.catalog) || r.schema in NamespaceBroad(q, rs, r.catalog))
  }

  // --- Slow path ---

  /** Indices below n that satisfy p, in ascending order. */
  function Indices(p: nat -> bool, n: nat): seq<nat> {
    if n == 0 then [] else Indices(p, n - 1) + (if p(n - 1) then [n - 1] else [])
  }

  lemma {:induction false} IndicesExact(p: nat -> bool, n: nat)
    ensures forall i: nat | i < n && p(i) :: i in Indices(p, n)
    ensures forall k | 0 <= k < |Indices(p, n)| :: Indices(p, n)[k] < n && p(Indices(p, n)[k])
  {
    if n > 0 {
      IndicesExact(p, n - 1);
    }
  }

  /** A resource whose decision belongs to LakeKeeper alone. */
  predicate LakekeeperTable(q: Query, r: Resource) {
    && r.Table? && TableOperation(q.op)
    && Managed(q, r.catalog) && !SystemSchema(r.schema) && !IsMetadataTable(r.table)
  }

  predicate LakekeeperSchema(q: Query, r: Resource) {
    r.Schema? && q.op.FilterSchemas? && Managed(q, r.catalog) && !SystemSchema(r.schema)
  }

  predicate SlowTable(q: Query, rs: seq<Resource>, catalog: string, i: nat) {
    i < |rs| && LakekeeperTable(q, rs[i]) && !FastPathCovers(q, rs, rs[i]) && rs[i].catalog == catalog
  }

  predicate SlowSchema(q: Query, rs: seq<Resource>, catalog: string, i: nat) {
    i < |rs| && LakekeeperSchema(q, rs[i]) && !FastPathCovers(q, rs, rs[i]) && rs[i].catalog == catalog
  }

  function TableEntries(q: Query, rs: seq<Resource>, catalog: string): (entries: seq<nat>)
    ensures forall k | 0 <= k < |entries| :: SlowTable(q, rs, catalog, entries[k])
    ensures forall i: nat | SlowTable(q, rs, catalog, i) :: i in entries
  {
    var p := (i: nat) => SlowTable(q, rs, catalog, i);
    IndicesExact(p, |rs|);
    Indices(p, |rs|)
  }

  function SchemaEntries(q: Query, rs: seq<Resource>, catalog: string): (entries: seq<nat>)
    ensures forall k | 0 <= k < |entries| :: SlowSchema(q, rs, catalog, entries[k])
    ensures forall i: nat | SlowSchema(q, rs, catalog, i) :: i in entries
  {
    var p := (i: nat) => SlowSchema(q, rs, catalog, i);
    IndicesExact(p, |rs|);
    Indices(p, |rs|)
  }

  /** Two consecutive checks per table resource: Trino does not say whether it is a
      table or a view. */
  function PairChecks(wh: string, user: string, action: Action, tables: seq<Resource>): seq<Check>
    requires forall k | 0 <= k < |tables| :: tables[k].Table?
  {
    if tables == [] then []
    else
      var r := tables[|tables| - 1];
      PairChecks(wh, user, action, tables[..|tables| - 1]) + [
        TableCheck(wh, NamespaceFor(r.schema), r.table, user, action),
        ViewCheck(wh, NamespaceFor(r.schema), r.table, user, action)]
  }

  /** `ordered_indices`: every entry twice, aligned with the pairs of checks. */
  function Twice(entries: seq<nat>): seq<nat> {
    if entries == [] then []
    else
      var e := entries[|entries| - 1];
      Twice(entries[..|entries| - 1]) + [e, e]
  }

  function Resources(rs: seq<Resource>, entries: seq<nat>): (out: seq<Resource>)
    requires forall k | 0 <= k < |entries| :: entries[k] < |rs|
    ensures |out| == |entries| && forall i | 0 <= i < |entries| :: out[i] == rs[entries[i]]
  {
    seq(|entries|, i requires 0 <= i < |entries| => rs[entries[i]])
  }

  /** Only the first position of each pair is looked at, and either result suffices. */
  function AllowedPairs(ordered: seq<nat>, results: seq<bool>): set<nat> {
    set j: nat | j < |ordered| && j % 2 == 0 && (At(results, j) || At(results, j + 1)) :: ordered[j]
  }

  function SlowTables(q: Query, rs: seq<Resource>, catalog: string): set<nat> {
    match WarehouseOf(q, catalog)
    case None => {}
    case Some((lk, wh)) =>
      if !TableOperation(q.op) then {}
      else
        var entries := TableEntries(q, rs, catalog);
        var checks := PairChecks(wh, LakekeeperUser(q), BatchAction(q.op), Resources(rs, entries));
        AllowedPairs(Twice(entries), BatchResults(q, lk, checks))
  }

  function SlowSchemas(q: Query, rs: seq<Resource>, catalog: string): set<nat> {
    match WarehouseOf(q, catalog)
    case None => {}
    case Some((lk, wh)) =>
      var entries := SchemaEntries(q, rs, catalog);
      var names := seq(|entries|, i requires 0 <= i < |entries| => rs[entries[i]].schema);
      var results := BatchResults(q, lk, NamespaceChecks(wh, LakekeeperUser(q), names, GetMetadata));
      set j: nat | j < |entries| && At(results, j) :: entries[j]
  }

  // --- Rules for resources LakeKeeper does not decide ---

  /** `_batch_resource_catalog`: unlike `_resource_catalog_name`, undefined for functions. */
  function BatchCatalog(r: Resource): Option<string> {
    if r.Function? then None else ResourceCatalog(r)
  }

  predicate BatchManaged(q: Query, r: Resource) {
    BatchCatalog(r).Some? && Managed(q, BatchCatalog(r).value)
  }

  predicate HasBatchCatalog(r: Resource, catalog: string) {
    BatchCatalog(r) == Some(catalog)
  }

  function FirstOf(rs: seq<Resource>, catalog: string): (r: Resource)
    requires exists i :: 0 <= i < |rs| && HasBatchCatalog(rs[i], catalog)
    ensures r in rs && HasBatchCatalog(r, catalog)
  {
    if HasBatchCatalog(rs[0], catalog) then rs[0] else FirstOf(rs[1..], catalog)
  }

  /** One evaluation of `allow_unmanaged`, on the first resource of the catalog. */
  predicate UnmanagedCatalogAllowed(q: Query, rs: seq<Resource>, catalog: string) {
    && !Managed(q, catalog)
    && (exists i :: 0 <= i < |rs| && HasBatchCatalog(rs[i], catalog))
    && AllowUnmanaged(q, FirstOf(rs, catalog))
  }

  predicate ByUnmanagedCatalog(q: Query, rs: seq<Resource>, r: Resource) {
    BatchOperation(q.op) && BatchCatalog(r).Some? && UnmanagedCatalogAllowed(q, rs, BatchCatalog(r).value)
  }

  /** The two negated memberships also succeed when the catalog is undefined. */
  predicate ByDefaultAccess(q: Query, rs: seq<Resource>, r: Resource) {
    && BatchOperation(q.op) && !BatchManaged(q, r)
    && !(BatchCatalog(r).Some? && UnmanagedCatalogAllowed(q, rs, BatchCatalog(r).value))
    && AllowDefault(q, r)
  }

  predicate BySystemSchema(q: Query, r: Resource) {
    && BatchOperation(q.op) && BatchManaged(q, r)
    && (r.Table? || r.Schema?) && SystemSchema(r.schema) && Allow(q, r)
  }

  predicate ByMetadataTable(q: Query, r: Resource) {
    && TableOperation(q.op) && r.Table? && BatchManaged(q, r)
    && !SystemSchema(r.schema) && IsMetadataTable(r.table) && Allow(q, r)
  }

  predicate ByOtherOperation(q: Query, r: Resource) {
    !BatchOperation(q.op) && Allow(q, r)
  }

  predicate ByFastPath(q: Query, rs: seq<Resource>, r: Resource) {
    && FastPathCovers(q, rs, r) && !SystemSchema(r.schema)
    && (r.Table? ==> !IsMetadataTable(r.table))
  }

  predicate BySlowPath(q: Query, rs: seq<Resource>, i: nat) {
    exists catalog :: catalog in q.cfg.catalogs && (i in SlowTables(q, rs, catalog) || i in SlowSchemas(q, rs, catalog))
  }

  // --- FilterColumns with one table and a column list ---

  predicate SingleTable(q: Query, rs: seq<Resource>) {
    q.op.FilterColumns? && |rs| == 1 && rs[0].Table? && |rs[0].columns| > 0
  }

  predicate SingleTableAllowed(q: Query, rs: seq<Resource>)
    requires SingleTable(q, rs)
  {
    var r := rs[0];
    || WarehouseBroad(q, r.catalog)
    || r.schema in NamespaceBroad(q, rs, r.catalog)
    || 0 in SlowTables(q, rs, r.catalog)
  }

  function WithColumn(r: Resource, column: string): Resource
    requires r.Table?
  {
    r.(column := Some(column))
  }

  predicate ByColumns(q: Query, rs: seq<Resource>, i: nat) {
    && SingleTable(q, rs) && i < |rs[0].columns|
    && if LakekeeperTable(q, rs[0]) then SingleTableAllowed(q, rs)
       else Allow(q, WithColumn(rs[0], rs[0].columns[i]))
  }

  // --- batch ---

  predicate ByResource(q: Query, rs: seq<Resource>, i: nat) {
    && i < |rs|
    && (|| BySlowPath(q, rs, i)
        || ByFastPath(q, rs, rs[i])
        || ByUnmanagedCatalog(q, rs, rs[i])
        || ByDefaultAccess(q, rs, rs[i])
        || BySystemSchema(q, rs[i])
        || ByMetadataTable(q, rs[i])
        || ByOtherOperation(q, rs[i]))
  }

  predicate InBatch(q: Query, rs: seq<Resource>, i: nat) {
    ByResource(q, rs, i) || ByColumns(q, rs, i)
  }
}

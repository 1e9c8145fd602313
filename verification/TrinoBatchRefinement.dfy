/** The batched decision refines the per-resource one. */
module TrinoBatchRefinement {
  import opened Lakekeeper
  import opened TrinoPolicy
  import opened TrinoBatch
  import Order

  // --- Hypotheses about LakeKeeper ---

  /** Each reply to a request within the configured limit has one result per check, and a
      check is answered the same way alone and in a list. */
  ghost predicate FullReplies(q: Query) {
    forall lk, checks | lk in q.cfg.maxBatch && |checks| <= MaxSize(q.cfg.maxBatch[lk]) ::
      var reply := q.world.send(lk, checks);
      |reply| == |checks| && forall i | 0 <= i < |checks| :: reply[i] == Granted(q, lk, checks[i])
  }

  /** What LakeKeeper says about a resource it decides. */
  ghost predicate LakekeeperDecision(q: Query, r: Resource)
    requires LakekeeperDecides(q, r)
  {
    if r.Schema? then RequireSchema(q, r.catalog, r.schema, GetMetadata)
    else TableOrView(q, r)
  }

  ghost predicate LakekeeperDecides(q: Query, r: Resource) {
    LakekeeperTable(q, r) || LakekeeperSchema(q, r)
  }

  /** `list_everything` on the warehouse or the namespace above a resource. */
  ghost predicate BroadAbove(q: Query, r: Resource)
    requires r.Table? || r.Schema?
  {
    RequireCatalog(q, r.catalog, ListEverything) || RequireSchema(q, r.catalog, r.schema, ListEverything)
  }

  /** `list_everything` is `describe`, which every object below inherits: for the resources
      of this request, a broad grant implies the grant on the object itself. Objects outside
      the request, and names that do not exist, are not constrained. */
  ghost predicate BroadImpliesMetadata(q: Query, rs: seq<Resource>) {
    !q.op.SelectFromColumns? ==>
      forall i | 0 <= i < |rs| && LakekeeperDecides(q, rs[i]) ::
        BroadAbove(q, rs[i]) ==> LakekeeperDecision(q, rs[i])
  }

  ghost predicate ViewGranted(q: Query, r: Resource, action: Action)
    requires r.Table?
  {
    RequireView(q, r.catalog, r.schema, r.table, action)
  }

  /** The batch asks for `read_data` on views where `allow` asks for `select`. */
  ghost predicate ViewActionsAgree(q: Query, rs: seq<Resource>) {
    q.op.SelectFromColumns? ==>
      forall i | 0 <= i < |rs| && LakekeeperTable(q, rs[i]) ::
        ViewGranted(q, rs[i], ReadData) == ViewGranted(q, rs[i], Select)
  }

  ghost predicate Hypotheses(q: Query, rs: seq<Resource>) {
    FullReplies(q) && BroadImpliesMetadata(q, rs) && ViewActionsAgree(q, rs) && !Managed(q, SYSTEM_CATALOG)
  }

  // --- Alignment of results with checks, through chunking ---

  lemma {:induction false} BatchResultsExact(q: Query, lk: string, checks: seq<Check>, i: nat)
    requires FullReplies(q) && i < |checks|
    ensures At(BatchResults(q, lk, checks), i) <==> Granted(q, lk, checks[i])
  {
    if lk in q.cfg.maxBatch {
      var send := (cs: seq<Check>) => q.world.send(lk, cs);
      var answer := (c: Check) => Granted(q, lk, c);
      var size := MaxSize(q.cfg.maxBatch[lk]);
      forall k: nat | k < NumBatches(|checks|, size)
        ensures send(Chunk(checks, size, k)) == Pointwise(answer, Chunk(checks, size, k))
      {
        var reply := q.world.send(lk, Chunk(checks, size, k));
        assert reply == Pointwise(answer, Chunk(checks, size, k));
      }
      AlignedFrom(send, answer, checks, size, 0);
      assert Rest(checks, size, 0) == checks;
    }
  }

  lemma {:induction false} PairAt(wh: string, user: string, action: Action, tables: seq<Resource>, entries: seq<nat>,
                                  k: nat)
    requires forall j | 0 <= j < |tables| :: tables[j].Table?
    requires |tables| == |entries| && k < |tables|
    ensures var checks, ordered := PairChecks(wh, user, action, tables), Twice(entries);
            && |checks| == |ordered| == 2 * |tables|
            && ordered[2 * k] == entries[k]
            && checks[2 * k] == TableCheck(wh, NamespaceFor(tables[k].schema), tables[k].table, user, action)
            && checks[2 * k + 1] == ViewCheck(wh, NamespaceFor(tables[k].schema), tables[k].table, user, action)
  {
    var n := |tables| - 1;
    if n > 0 {
      PairAt(wh, user, action, tables[..n], entries[..n], if k < n then k else 0);
      assert k < n ==> tables[..n][k] == tables[k] && entries[..n][k] == entries[k];
    }
  }

  lemma PairsExact(entries: seq<nat>, ordered: seq<nat>, results: seq<bool>, i: nat)
    requires |ordered| == 2 * |entries|
    requires forall k | 0 <= k < |entries| :: ordered[2 * k] == entries[k]
    ensures i in AllowedPairs(ordered, results) <==>
            exists k :: 0 <= k < |entries| && entries[k] == i && (At(results, 2 * k) || At(results, 2 * k + 1))
  {
    if i in AllowedPairs(ordered, results) {
      var j: nat :| j < |ordered| && j % 2 == 0 && (At(results, j) || At(results, j + 1)) && ordered[j] == i;
      var k := j / 2;
      assert j == 2 * k && entries[k] == i;
    }
    if k :| 0 <= k < |entries| && entries[k] == i && (At(results, 2 * k) || At(results, 2 * k + 1)) {
      var j := 2 * k;
      assert j % 2 == 0 && ordered[j] == i && (At(results, j) || At(results, j + 1));
    }
  }

  ghost predicate TableOrView(q: Query, r: Resource)
    requires r.Table? && TableOperation(q.op)
  {
    || RequireTable(q, r.catalog, r.schema, r.table, BatchAction(q.op))
    || RequireView(q, r.catalog, r.schema, r.table, BatchAction(q.op))
  }

  /** Resource k of the slow path is allowed exactly when result 2k or 2k+1 is, for every
      list of resources and every chunk size. */
  lemma {:induction false} SlowTablesExact(q: Query, rs: seq<Resource>, catalog: string, i: nat)
    requires FullReplies(q)
    ensures i in SlowTables(q, rs, catalog) <==> SlowTable(q, rs, catalog, i) && TableOrView(q, rs[i])
  {
    if WarehouseOf(q, catalog).Some? && TableOperation(q.op) {
      var (lk, wh) := WarehouseOf(q, catalog).value;
      var entries := TableEntries(q, rs, catalog);
      var tables := Resources(rs, entries);
      var checks := PairChecks(wh, LakekeeperUser(q), BatchAction(q.op), tables);
      var ordered := Twice(entries);
      var results := BatchResults(q, lk, checks);
      forall k: nat | k < |entries|
        ensures |ordered| == 2 * |entries| && ordered[2 * k] == entries[k]
        ensures (At(results, 2 * k) || At(results, 2 * k + 1)) <==> TableOrView(q, tables[k])
      {
        PairAt(wh, LakekeeperUser(q), BatchAction(q.op), tables, entries, k);
        BatchResultsExact(q, lk, checks, 2 * k);
        BatchResultsExact(q, lk, checks, 2 * k + 1);
      }
      if entries == [] {
        assert ordered == [];
      }
      PairsExact(entries, ordered, results, i);
    }
  }

  lemma {:induction false} SlowSchemasExact(q: Query, rs: seq<Resource>, catalog: string, i: nat)
    requires FullReplies(q)
    ensures i in SlowSchemas(q, rs, catalog) <==>
            SlowSchema(q, rs, catalog, i) && RequireSchema(q, catalog, rs[i].schema, GetMetadata)
  {
    if WarehouseOf(q, catalog).Some? {
      var (lk, wh) := WarehouseOf(q, catalog).value;
      var entries := SchemaEntries(q, rs, catalog);
      var names := seq(|entries|, k requires 0 <= k < |entries| => rs[entries[k]].schema);
      var checks := NamespaceChecks(wh, LakekeeperUser(q), names, GetMetadata);
      forall k: nat | k < |entries|
        ensures At(BatchResults(q, lk, checks), k) <==> RequireSchema(q, catalog, rs[entries[k]].schema, GetMetadata)
      {
        BatchResultsExact(q, lk, checks, k);
      }
      if SlowSchema(q, rs, catalog, i) {
        var k :| 0 <= k < |entries| && entries[k] == i;
      }
    }
  }

  // --- Soundness of the fast paths ---

  lemma WarehouseBroadExact(q: Query, catalog: string)
    requires FullReplies(q)
    ensures WarehouseBroad(q, catalog) <==> RequireCatalog(q, catalog, ListEverything)
  {
    if WarehouseOf(q, catalog).Some? {
      var (lk, wh) := WarehouseOf(q, catalog).value;
      BatchResultsExact(q, lk, [WarehouseCheck(wh, LakekeeperUser(q), ListEverything)], 0);
    }
  }

  lemma {:induction false} NamespaceBroadExact(q: Query, rs: seq<Resource>, catalog: string, schema: string)
    requires FullReplies(q)
    ensures schema in NamespaceBroad(q, rs, catalog) <==>
            && !WarehouseBroad(q, catalog)
            && schema in DistinctSchemas(q, rs, catalog)
            && RequireSchema(q, catalog, schema, ListEverything)
  {
    if WarehouseOf(q, catalog).Some? && !WarehouseBroad(q, catalog) {
      var (lk, wh) := WarehouseOf(q, catalog).value;
      var names := Order.SortSet(DistinctSchemas(q, rs, catalog));
      var checks := NamespaceChecks(wh, LakekeeperUser(q), names, ListEverything);
      forall k: nat | k < |names|
        ensures At(BatchResults(q, lk, checks), k) <==> RequireSchema(q, catalog, names[k], ListEverything)
      {
        BatchResultsExact(q, lk, checks, k);
      }
      if schema in names {
        var k :| 0 <= k < |names| && names[k] == schema;
      }
    }
  }

  /** A LakeKeeper resource of the request is covered exactly under a broad grant above it,
      and never when selecting. */
  lemma {:induction false} CoveredExact(q: Query, rs: seq<Resource>, i: nat)
    requires FullReplies(q) && i < |rs| && LakekeeperDecides(q, rs[i])
    ensures FastPathCovers(q, rs, rs[i]) <==> !q.op.SelectFromColumns? && BroadAbove(q, rs[i])
  {
    var r := rs[i];
    WarehouseBroadExact(q, r.catalog);
    NamespaceBroadExact(q, rs, r.catalog, r.schema);
    CoveredBySets(q, rs, i);
  }

  lemma {:induction false} CoveredBySets(q: Query, rs: seq<Resource>, i: nat)
    requires i < |rs| && LakekeeperDecides(q, rs[i])
    requires var (catalog, schema) := (rs[i].catalog, rs[i].schema);
             && (WarehouseBroad(q, catalog) <==> RequireCatalog(q, catalog, ListEverything))
             && (schema in NamespaceBroad(q, rs, catalog) <==>
                   && !WarehouseBroad(q, catalog) && schema in DistinctSchemas(q, rs, catalog)
                   && RequireSchema(q, catalog, schema, ListEverything))
    ensures FastPathCovers(q, rs, rs[i]) <==> !q.op.SelectFromColumns? && BroadAbove(q, rs[i])
  {
    SchemaProbed(q, rs, i);
  }

  lemma {:induction false} SchemaProbed(q: Query, rs: seq<Resource>, i: nat)
    requires i < |rs| && LakekeeperDecides(q, rs[i])
    ensures rs[i].schema in DistinctSchemas(q, rs, rs[i].catalog)
  {
    assert ProbesSchema(q, rs[i], rs[i].catalog);
  }

  lemma {:induction false} FastPathSound(q: Query, rs: seq<Resource>, i: nat)
    requires FullReplies(q) && BroadImpliesMetadata(q, rs)
    requires i < |rs| && LakekeeperDecides(q, rs[i])
    requires FastPathCovers(q, rs, rs[i])
    ensures LakekeeperDecision(q, rs[i])
  {
    CoveredExact(q, rs, i);
  }

  /** For a resource LakeKeeper decides, the batch allows what a broad grant above covers and
      what LakeKeeper grants on the object. */
  lemma {:induction false} PathsUnion(q: Query, rs: seq<Resource>, i: nat)
    requires FullReplies(q) && i < |rs|
    ensures BySlowPath(q, rs, i) || ByFastPath(q, rs, rs[i]) <==>
            && LakekeeperDecides(q, rs[i])
            && (|| (!q.op.SelectFromColumns? && BroadAbove(q, rs[i]))
                || LakekeeperDecision(q, rs[i]))
  {
    var r := rs[i];
    forall catalog | catalog in q.cfg.catalogs
      ensures i in SlowTables(q, rs, catalog) || i in SlowSchemas(q, rs, catalog) <==>
              && (SlowTable(q, rs, catalog, i) || SlowSchema(q, rs, catalog, i))
              && LakekeeperDecision(q, r)
    {
      SlowTablesExact(q, rs, catalog, i);
      SlowSchemasExact(q, rs, catalog, i);
    }
    if ByFastPath(q, rs, r) {
      CoveredIsManaged(q, rs, r);
    }
    if LakekeeperDecides(q, r) {
      CoveredExact(q, rs, i);
    }
  }

  /** For a resource LakeKeeper decides, fast path and slow path together give exactly
      LakeKeeper's decision. */
  lemma {:induction false} PathsExact(q: Query, rs: seq<Resource>, i: nat)
    requires FullReplies(q) && BroadImpliesMetadata(q, rs) && i < |rs|
    ensures BySlowPath(q, rs, i) || ByFastPath(q, rs, rs[i]) <==>
            LakekeeperDecides(q, rs[i]) && LakekeeperDecision(q, rs[i])
  {
    PathsUnion(q, rs, i);
  }

  lemma {:induction false} CoveredIsManaged(q: Query, rs: seq<Resource>, r: Resource)
    requires FastPathCovers(q, rs, r)
    ensures Managed(q, r.catalog)
  {
  }

  // --- The unmanaged catalogs ---

  lemma {:induction false} RepresentativeSuffices(q: Query, rs: seq<Resource>, i: nat)
    requires i < |rs| && BatchCatalog(rs[i]).Some?
    ensures UnmanagedCatalogAllowed(q, rs, BatchCatalog(rs[i]).value) <==> AllowUnmanaged(q, rs[i])
  {
    var catalog := BatchCatalog(rs[i]).value;
    assert HasBatchCatalog(rs[i], catalog);
  }

  // --- Refinement ---

  /** The only places where batch and `allow` part: function resources of a blanket-allowed
      catalog, whose catalog the batch rules do not read, and, with the blanket off, the
      admins' system schemas of an unmanaged catalog. */
  ghost predicate Gap(q: Query, r: Resource) {
    || (r.Function? && AllowUnmanaged(q, r))
    || (&& (r.Table? || r.Schema?) && !Managed(q, r.catalog) && !q.cfg.allowUnmanaged
        && AllowAdminSystemSchemas(q, r) && r.catalog != SYSTEM_CATALOG)
  }

  lemma {:induction false} UnmanagedExact(q: Query, rs: seq<Resource>, i: nat)
    requires BatchOperation(q.op) && i < |rs| && !BatchManaged(q, rs[i])
    ensures ByUnmanagedCatalog(q, rs, rs[i]) || ByDefaultAccess(q, rs, rs[i]) <==>
            Allow(q, rs[i]) && !Gap(q, rs[i])
  {
    if BatchCatalog(rs[i]).Some? {
      RepresentativeSuffices(q, rs, i);
    }
  }

  lemma {:induction false} ManagedExact(q: Query, rs: seq<Resource>, i: nat)
    requires ViewActionsAgree(q, rs) && !Managed(q, SYSTEM_CATALOG) && BatchOperation(q.op)
    requires i < |rs| && LakekeeperDecides(q, rs[i])
    ensures Allow(q, rs[i]) <==> LakekeeperDecision(q, rs[i])
  {
    var r := rs[i];
    assert !AllowDefault(q, r) && !AllowUnmanaged(q, r);
    if r.Table? {
      BaseNameUnique(r.table);
    }
  }

  /** Batch refines per-resource `allow`, exactly: index i is in the batch if and only if
      `allow` holds for resource i and resource i is not in the gap. */
  lemma {:induction false} BatchExact(q: Query, rs: seq<Resource>, i: nat)
    requires Hypotheses(q, rs) && i < |rs|
    ensures ByResource(q, rs, i) <==> Allow(q, rs[i]) && !(BatchOperation(q.op) && Gap(q, rs[i]))
  {
    var r := rs[i];
    PathsExact(q, rs, i);
    if BatchOperation(q.op) {
      if !BatchManaged(q, r) {
        UnmanagedExact(q, rs, i);
      } else if LakekeeperDecides(q, r) {
        ManagedExact(q, rs, i);
      } else {
        RestOfManaged(q, r);
      }
    }
  }

  /** A managed resource that LakeKeeper does not decide is a system schema, a metadata
      table, or of a kind the operation never allows. */
  lemma RestOfManaged(q: Query, r: Resource)
    requires BatchOperation(q.op) && BatchManaged(q, r)
    requires !LakekeeperDecides(q, r) && !Managed(q, SYSTEM_CATALOG)
    ensures Allow(q, r) <==> BySystemSchema(q, r) || ByMetadataTable(q, r)
  {
  }

  /** With the blanket on, as the operator deploys it, and no function resources, batch
      and `allow` are the same decision. */
  lemma {:induction false} BatchRefinesAllow(q: Query, rs: seq<Resource>, i: nat)
    requires Hypotheses(q, rs) && q.cfg.allowUnmanaged && i < |rs| && !rs[i].Function? && !SingleTable(q, rs)
    ensures InBatch(q, rs, i) <==> Allow(q, rs[i])
  {
    BatchExact(q, rs, i);
  }

  /** With the blanket off the batch never allows more, and for non-admins it is the same. */
  lemma {:induction false} BatchWithoutBlanket(q: Query, rs: seq<Resource>, i: nat)
    requires Hypotheses(q, rs) && !q.cfg.allowUnmanaged && i < |rs| && !SingleTable(q, rs)
    ensures InBatch(q, rs, i) ==> Allow(q, rs[i])
    ensures !IsAdmin(q) ==> (InBatch(q, rs, i) <==> Allow(q, rs[i]))
  {
    BatchExact(q, rs, i);
  }

  lemma ColumnIgnored(q: Query, r: Resource, column: string)
    requires r.Table? && q.op.FilterColumns?
    ensures Allow(q, WithColumn(r, column)) <==> Allow(q, r)
  {
    var r' := WithColumn(r, column);
    assert r'.catalog == r.catalog && r'.schema == r.schema && r'.table == r.table;
  }

  /** FilterColumns on one table is all or nothing: every column index when the table is
      allowed and none otherwise, although two families of rules contribute index 0, and
      whether or not unmanaged catalogs are allowed wholesale. */
  lemma {:induction false} SingleTableAllOrNothing(q: Query, rs: seq<Resource>, i: nat)
    requires Hypotheses(q, rs) && SingleTable(q, rs)
    ensures InBatch(q, rs, i) <==> i < |rs[0].columns| && Allow(q, rs[0])
  {
    var r := rs[0];
    if i < |rs| {
      BatchExact(q, rs, i);
    }
    if i < |r.columns| {
      ColumnIgnored(q, r, r.columns[i]);
      if LakekeeperTable(q, r) {
        ManagedExact(q, rs, 0);
        SlowTablesExact(q, rs, r.catalog, 0);
        if WarehouseBroad(q, r.catalog) || r.schema in NamespaceBroad(q, rs, r.catalog) {
          FastPathSound(q, rs, 0);
        }
      }
    }
  }

  lemma {:induction false} DecidedByPaths(q: Query, rs: seq<Resource>, i: nat)
    requires FullReplies(q) && i < |rs| && LakekeeperDecides(q, rs[i])
    ensures ByResource(q, rs, i) <==>
            (!q.op.SelectFromColumns? && BroadAbove(q, rs[i])) || LakekeeperDecision(q, rs[i])
  {
    PathsUnion(q, rs, i);
  }

  lemma AllowOnManaged(q: Query, r: Resource)
    requires LakekeeperDecides(q, r)
    ensures Allow(q, r) <==>
            || AllowDefault(q, r)
            || (&& q.op.SelectFromColumns?
                && (RequireTable(q, r.catalog, r.schema, r.table, ReadData) || ViewGranted(q, r, Select)))
            || (!q.op.SelectFromColumns? && LakekeeperDecision(q, r))
  {
    if r.Table? {
      BaseNameUnique(r.table);
    }
  }

  /** What the hypotheses buy: on a resource LakeKeeper decides, with full replies alone, the
      two decisions agree exactly when, for a select, the two view actions agree or the table
      grant settles it, and, otherwise, a broad grant above comes with a grant on the object.
      Default access enters only with a managed "system" catalog. */
  lemma {:induction false} HypothesesNeeded(q: Query, rs: seq<Resource>, i: nat)
    requires FullReplies(q) && i < |rs| && LakekeeperDecides(q, rs[i])
    ensures AllowDefault(q, rs[i]) ==> rs[i].catalog == SYSTEM_CATALOG
    ensures var r := rs[i];
            (ByResource(q, rs, i) <==> Allow(q, r)) <==>
            if q.op.SelectFromColumns? then
              || RequireTable(q, r.catalog, r.schema, r.table, ReadData)
              || (ViewGranted(q, r, ReadData) <==> ViewGranted(q, r, Select) || AllowDefault(q, r))
            else
              LakekeeperDecision(q, r) || (BroadAbove(q, r) <==> AllowDefault(q, r))
  {
    DecidedByPaths(q, rs, i);
    AllowOnManaged(q, rs[i]);
  }
}

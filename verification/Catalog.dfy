/** LakeKeeper behind its foundations, and the warehouse behind five ready gates. */
module Catalog {
  import opened Cluster
  import opened Platform
  import opened Foundations
  import opened Identity
  import opened Authorization

  /** Catalog calls of one pass in order; the attempts stop at the first failure. */
  ghost function Plan(embedded: bool, storeId: string, members: bool): seq<Call> {
    [Bootstrap]
    + (if embedded then [Grants] else [])
    + [Warehouse]
    + PlanGroups(embedded, storeId, members)
  }

  ghost function PlanGroups(embedded: bool, storeId: string, members: bool): seq<Call> {
    if !embedded then [] else [Roles] + (if storeId != "" && members then [Tuples(storeId)] else [])
  }

  /** LakeKeeper's key and deployment. */
  method ApplyCatalog(api: Api, ns: string) returns (ok: bool)
    requires api.Valid()
    modifies api`fault, api`secrets, api`calls, api`notes
    ensures api.Valid() && Later(old(api.notes), api.notes)
    ensures api.calls == old(api.calls) + [ApplyLakekeeper] || (!ok && api.calls == old(api.calls))
    ensures ok ==> (ns, EncryptionKey) in api.notes.made
    ensures api.world.healthy ==> ok
    ensures ok ==> api.fault == old(api.fault)
  {
    var key;
    ok, key := api.Random();
    if ok {
      ok := api.EnsureGeneratedSecret(ns, EncryptionKey, map[PgEncryptionKey := key]);
    }
    if ok {
      api.Record(ApplyLakekeeper);
      ok := api.Request();
    }
  }

  lemma LakekeeperSettles(dp: DataPlatform, api: Api, ready: bool, o: Outcome)
    requires Ruled(dp, api)
    requires if ready then ReadyEnd(api.world, dp.spec.lakekeeperNs, LakekeeperDeployment, o)
             else o.Waiting?
    requires o.Up? ==> (dp.spec.lakekeeperNs, EncryptionKey) in api.notes.made
    requires dp.spec.lakekeeper && (dp.pass.calm ==> ready)
    ensures Fits(dp.spec, api.world.workloads, dp.pass.calm, Lakekeeper, o, Done(api))
    ensures (api.start.smooth ==> !o.Failed?)
  {
    PaceOf(dp, api, Lakekeeper);
    LakekeeperFits(dp.spec, api.world, api.start.smooth, dp.pass.calm, ready, Done(api), o);
  }

  /** Identity and OpenFGA are ready whenever LakeKeeper is applied. */
  method LakekeeperOutcome(api: Api, ns: string, ready: bool) returns (o: Outcome)
    requires api.Valid()
    modifies api`fault, api`secrets, api`calls, api`notes
    ensures api.Valid() && Later(old(api.notes), api.notes)
    ensures api.calls == old(api.calls) || (ready && api.calls == old(api.calls) + [ApplyLakekeeper])
    ensures o.Up? ==> api.calls == old(api.calls) + [ApplyLakekeeper] && (ns, EncryptionKey) in api.notes.made
    ensures if ready then ReadyEnd(api.world, ns, LakekeeperDeployment, o) else o.Waiting?
    ensures !o.Failed? ==> api.fault == old(api.fault)
  {
    if !ready {
      return Waiting;
    }
    var ok := ApplyCatalog(api, ns);
    o := Finish(api, ok, ns, LakekeeperDeployment);
  }

  lemma LakekeeperFits(spec: Spec, world: World, smooth: bool, calm: bool, ready: bool, done: Facts,
                       o: Outcome)
    requires if ready then ReadyEnd(world, spec.lakekeeperNs, LakekeeperDeployment, o) else o.Waiting?
    requires o.Up? ==> (spec.lakekeeperNs, EncryptionKey) in done.made
    requires Paced(spec, world, smooth, calm, Lakekeeper) && spec.lakekeeper && (calm ==> ready)
    ensures Fits(spec, world.workloads, calm, Lakekeeper, o, done) && (smooth ==> !o.Failed?)
  {
  }

  method ReconcileLakekeeper(dp: DataPlatform, api: Api, authReady: bool, fgaReady: bool) returns (o: Outcome)
    requires InPass(dp, api) && Ruled(dp, api) && dp.spec.lakekeeper && (dp.pass.calm ==> authReady && fgaReady)
    modifies dp`conditions, dp`reached, api`fault, api`mark, api`secrets, api`calls, api`notes
    ensures InPass(dp, api) && dp.reached.outs == old(dp.reached.outs)[Lakekeeper := o]
    ensures Later(old(api.notes), api.notes)
    ensures api.calls == old(api.calls) || (authReady && fgaReady && api.calls == old(api.calls) + [ApplyLakekeeper])
    ensures o.Up? ==> api.calls == old(api.calls) + [ApplyLakekeeper]
    ensures !(authReady && fgaReady) ==> o.Waiting?
    ensures o.Waiting? && authReady && fgaReady ==>
              Starting(api.world.workloads, dp.spec.lakekeeperNs, LakekeeperDeployment)
    ensures api.start.smooth ==> !o.Failed?
    ensures !o.Failed? ==> api.fault == old(api.fault)
  {
    o := LakekeeperOutcome(api, dp.spec.lakekeeperNs, authReady && fgaReady);
    LakekeeperSettles(dp, api, authReady && fgaReady, o);
    Settle(dp, api, Lakekeeper, o);
  }

  /** `reconcileAccessGroups`: roles, then the membership tuples of the store. */
  method ReconcileAccessGroups(api: Api, oidc: OidcConfig, fga: FgaConfig)
    returns (ok: bool, members: bool, ghost made: seq<Call>)
    requires api.Valid()
    modifies api`fault, api`calls
    ensures api.Valid() && api.calls == old(api.calls) + made
    ensures made <= PlanGroups(oidc.embedded, fga.storeId, members)
    ensures ok ==> made == PlanGroups(oidc.embedded, fga.storeId, members)
    ensures api.world.healthy ==> ok
    ensures ok ==> api.fault == old(api.fault)
  {
    made, members := [], false;
    if !oidc.embedded {
      return true, false, [];
    }
    ok := api.Request(); // Keycloak's groups and members, access token
    if !ok {
      return;
    }
    members := *;
    api.Record(Roles);
    made := [Roles];
    ok := api.Request();
    if !ok || fga.storeId == "" || !members {
      return;
    }
    api.Record(Tuples(fga.storeId));
    made := [Roles, Tuples(fga.storeId)];
    ok := api.Request();
  }

  method CatalogCalls(api: Api, oidc: OidcConfig, fga: FgaConfig)
    returns (ok: bool, members: bool, ghost made: seq<Call>)
    requires api.Valid()
    modifies api`fault, api`calls
    ensures api.Valid() && api.calls == old(api.calls) + made
    ensures made <= Plan(oidc.embedded, fga.storeId, members)
    ensures ok ==> made == Plan(oidc.embedded, fga.storeId, members)
    ensures api.world.healthy ==> ok
    ensures ok ==> api.fault == old(api.fault)
  {
    made, members := [], false;
    ok := api.Request(); // access token
    if ok {
      ok, made := BootstrapCalls(api, oidc.embedded);
    }
    if !ok {
      return;
    }
    ghost var before := made;
    ghost var groups: seq<Call>;
    ok, members, groups := ReconcileAccessGroups(api, oidc, fga);
    made := before + groups;
    PlanSplits(oidc.embedded, fga.storeId, members, groups);
  }

  /** The calls before the access groups. */
  ghost function PlanStart(embedded: bool): seq<Call> {
    [Bootstrap] + (if embedded then [Grants] else []) + [Warehouse]
  }

  lemma {:induction false} PlanSplits(embedded: bool, storeId: string, members: bool, groups: seq<Call>)
    requires groups <= PlanGroups(embedded, storeId, members)
    ensures PlanStart(embedded) + groups <= Plan(embedded, storeId, members)
    ensures Plan(embedded, storeId, members) == PlanStart(embedded) + PlanGroups(embedded, storeId, members)
  {
    var plan := Plan(embedded, storeId, members);
    assert plan == PlanStart(embedded) + PlanGroups(embedded, storeId, members);
  }

  /** One call, and whether to go on. */
  method Make(api: Api, call: Call) returns (ok: bool)
    requires api.Valid()
    modifies api`fault, api`calls
    ensures api.Valid() && api.calls == old(api.calls) + [call]
    ensures api.world.healthy ==> ok
    ensures ok ==> api.fault == old(api.fault)
  {
    api.Record(call);
    ok := api.Request();
  }

  method BootstrapCalls(api: Api, embedded: bool) returns (ok: bool, ghost made: seq<Call>)
    requires api.Valid()
    modifies api`fault, api`calls
    ensures api.Valid() && api.calls == old(api.calls) + made
    ensures made <= PlanStart(embedded) && (ok ==> made == PlanStart(embedded))
    ensures api.world.healthy ==> ok
    ensures ok ==> api.fault == old(api.fault)
  {
    made := [Bootstrap];
    ok := Make(api, Bootstrap);
    if ok && embedded {
      made := made + [Grants];
      ok := Make(api, Grants);
    }
    if ok {
      made := made + [Warehouse];
      ok := Make(api, Warehouse);
    }
  }

  method ReconcileWarehouse(dp: DataPlatform, api: Api, oidc: OidcConfig, fga: FgaConfig, catalogClient: bool)
    returns (o: Outcome, members: bool, ghost made: seq<Call>)
    requires InPass(dp, api) && Ruled(dp, api) && (api.start.smooth ==> catalogClient)
    modifies dp`conditions, dp`reached, api`fault, api`mark, api`calls
    ensures InPass(dp, api) && dp.reached.outs == old(dp.reached.outs)[WarehouseReady := o]
    ensures api.calls == old(api.calls) + made
    ensures made <= Plan(oidc.embedded, fga.storeId, members)
    ensures o.Up? ==> made == Plan(oidc.embedded, fga.storeId, members)
    ensures o.Waiting? <==> !catalogClient
    ensures api.start.smooth ==> !o.Failed?
    ensures !o.Failed? ==> api.fault == old(api.fault)
  {
    PaceOf(dp, api, WarehouseReady);
    made, members := [], false;
    if !catalogClient {
      o := Waiting;
    } else {
      var ok: bool;
      ok, members, made := CatalogCalls(api, oidc, fga);
      o := if ok then Up else Failed;
    }
    Settle(dp, api, WarehouseReady, o);
  }

  method ReconcileStorage(dp: DataPlatform, api: Api) returns (err: bool, store: ObjectStore)
    requires InPass(dp, api) && Ruled(dp, api) && dp.reached.outs == map[] && dp.spec.lakekeeper
    requires api.jobs == api.start.jobs
    modifies dp`conditions, dp`reached, api`fault, api`mark, api`secrets, api`jobs, api`notes
    ensures InPass(dp, api) && dp.reached.outs.Keys <= {Postgres, Minio} && Later(old(api.notes), api.notes)
    ensures !err ==>
              && Reached(dp.reached.outs, Postgres) && Reached(dp.reached.outs, Minio)
              && StoreResolved(dp.spec, api.world, api.notes.seen, store)
    ensures api.start.smooth ==> !err
    ensures !err ==> api.fault == old(api.fault)
  {
    PaceOf(dp, api, Postgres);
    store := NO_STORE;
    var ok := api.Request(); // namespace
    if !ok {
      return true, store;
    }
    var o := ReconcilePostgres(dp, api);
    if o.Failed? {
      return true, store;
    }
    ghost var first := o;
    assert dp.reached.outs == map[Postgres := first];
    o, store := ReconcileObjectStore(dp, api);
    StorageOutcomes(first, o);
    err := o.Failed?;
  }

  lemma StorageOutcomes(postgres: Outcome, minio: Outcome)
    ensures var outs: Outcomes := map[Postgres := postgres][Minio := minio];
            && outs.Keys <= {Postgres, Minio}
            && (!postgres.Failed? && !minio.Failed? ==> Reached(outs, Postgres) && Reached(outs, Minio))
  {
  }

  lemma AccessOutcomes(outs: Outcomes, auth: Outcome, authz: Outcome)
    requires outs.Keys <= {Postgres, Minio}
    ensures outs[Auth := auth].Keys <= {Postgres, Minio, Auth, OpenFGA}
    ensures outs[Auth := auth][OpenFGA := authz].Keys <= {Postgres, Minio, Auth, OpenFGA}
    ensures Reached(outs, Postgres) && Reached(outs, Minio) && !auth.Failed? && !authz.Failed? ==>
              FoundationsReached(outs[Auth := auth][OpenFGA := authz])
  {
  }

  method ReconcileFoundations(dp: DataPlatform, api: Api, catalogClient: bool)
    returns (err: bool, oidc: OidcConfig, fga: FgaConfig, store: ObjectStore)
    requires InHead(dp, api) && Ruled(dp, api) && dp.reached.outs == map[] && api.calls == [] && dp.spec.lakekeeper
    requires api.jobs == api.start.jobs && (api.start.smooth ==> catalogClient)
    modifies dp`conditions, dp`reached, api`fault, api`mark, api`secrets, api`jobs, api`calls, api`notes, api`output
    ensures InHead(dp, api) && Later(old(api.notes), api.notes)
    ensures dp.reached.outs.Keys <= {Postgres, Minio, Auth, OpenFGA}
    ensures !err ==>
              && FoundationsReached(dp.reached.outs)
              && Resolved(dp.spec, api.world, api.notes.seen, oidc, fga, store)
    ensures StoreCall(api.calls, fga.storeId)
    ensures api.start.smooth ==> !err
    ensures !err ==> api.fault == old(api.fault)
  {
    oidc, fga := NO_OIDC, NO_FGA;
    err, store := ReconcileStorage(dp, api);
    if err {
      return;
    }
    ghost var notes, storage := api.notes, dp.reached.outs;
    var auth, authz;
    auth, authz, oidc, fga := ReconcileAccess(dp, api, catalogClient);
    err := auth.Failed? || authz.Failed?;
    AccessOutcomes(storage, auth, authz);
    if !err {
      StoreGrows(dp.spec, api.world, notes.seen, api.notes.seen, store);
    }
  }

  /** Identity, then authorization. */
  method ReconcileAccess(dp: DataPlatform, api: Api, catalogClient: bool)
    returns (auth: Outcome, authz: Outcome, oidc: OidcConfig, fga: FgaConfig)
    requires InHead(dp, api) && Ruled(dp, api) && api.calls == []
    requires dp.spec.lakekeeper && (api.start.smooth ==> catalogClient)
    modifies dp`conditions, dp`reached, api`fault, api`mark, api`secrets, api`calls, api`notes, api`output
    ensures InHead(dp, api) && Later(old(api.notes), api.notes)
    ensures var outs := old(dp.reached.outs)[Auth := auth];
            dp.reached.outs == if auth.Failed? then outs else outs[OpenFGA := authz]
    ensures !auth.Failed? && !authz.Failed? ==>
              && OidcResolved(dp.spec, api.world, api.notes.seen, oidc)
              && FgaResolved(dp.spec, api.world.workloads, fga)
    ensures StoreCall(api.calls, fga.storeId)
    ensures api.start.smooth ==> !auth.Failed? && !authz.Failed?
    ensures !auth.Failed? && !authz.Failed? ==> api.fault == old(api.fault)
  {
    authz, fga := Failed, NO_FGA;
    auth, oidc := ReconcileAuth(dp, api);
    if auth.Failed? {
      return;
    }
    ghost var notes := api.notes;
    authz, fga := ReconcileAuthz(dp, api, catalogClient);
    OidcGrows(dp.spec, api.world, notes.seen, api.notes.seen, oidc);
  }

  /** Which stages `reconcileLakekeeperStack` reaches, and what it reports. */
  ghost predicate StackLegal(outs: Outcomes, err: bool, progressing: bool) {
    && outs.Keys <= {Postgres, Minio, Auth, OpenFGA, Lakekeeper, WarehouseReady}
    && (WarehouseReady in outs ==> GatesUp(outs))
    && (!err ==>
          && FoundationsReached(outs) && Reached(outs, Lakekeeper)
          && (WarehouseReady in outs <==> GatesUp(outs))
          && (WarehouseReady in outs ==> Reached(outs, WarehouseReady))
          && (progressing <==> !(GatesUp(outs) && IsUp(outs, WarehouseReady))))
  }

  /** The remote calls of one pass: the store first, LakeKeeper behind a ready identity
      provider and OpenFGA, and catalog calls behind all five gates, as a prefix of the plan
      for the store obtained in this very pass. */
  ghost predicate CallsLegal(spec: Spec, outs: Outcomes, calls: seq<Call>) {
    exists store: seq<Call>, lake: seq<Call>, catalog: seq<Call>, id: string, members: bool ::
      CallsSplit(spec, outs, calls, store, lake, catalog, id, members)
  }

  /** The plan is that of the spec, and all of it is carried out when the stage is up. */
  ghost predicate CallsSplit(spec: Spec, outs: Outcomes, calls: seq<Call>, store: seq<Call>, lake: seq<Call>,
                             catalog: seq<Call>, id: string, members: bool) {
    && calls == store + lake + catalog
    && StoreCall(store, id)
    && (lake == [] || (lake == [ApplyLakekeeper] && IsUp(outs, Auth) && IsUp(outs, OpenFGA)))
    && catalog <= Plan(Embedded(spec), id, members)
    && (catalog != [] ==> GatesUp(outs) && lake != [])
    && (spec.lakekeeper && IsUp(outs, WarehouseReady) ==> catalog == Plan(Embedded(spec), id, members))
  }

  method ReconcileLakekeeperGate(dp: DataPlatform, api: Api) returns (o: Outcome)
    requires InPass(dp, api) && Ruled(dp, api) && FoundationsReached(dp.reached.outs) && dp.spec.lakekeeper
    modifies dp`conditions, dp`reached, api`fault, api`mark, api`secrets, api`calls, api`notes
    ensures InPass(dp, api) && dp.reached.outs == old(dp.reached.outs)[Lakekeeper := o]
    ensures Later(old(api.notes), api.notes)
    ensures api.calls == old(api.calls)
            || (&& IsUp(dp.reached.outs, Auth) && IsUp(dp.reached.outs, OpenFGA)
                && api.calls == old(api.calls) + [ApplyLakekeeper])
    ensures o.Up? ==> api.calls == old(api.calls) + [ApplyLakekeeper]
    ensures api.start.smooth ==> !o.Failed?
    ensures !o.Failed? ==> api.fault == old(api.fault)
  {
    var authReady := dp.ConditionTrue(Auth);
    var fgaReady := dp.ConditionTrue(OpenFGA);
    CalmUp(dp.Now(), Auth);
    CalmUp(dp.Now(), OpenFGA);
    o := ReconcileLakekeeper(dp, api, authReady, fgaReady);
  }

  method GatesReady(dp: DataPlatform) returns (ready: bool)
    requires dp.Valid() && FoundationsReached(dp.reached.outs) && Reached(dp.reached.outs, Lakekeeper)
    ensures ready <==> GatesUp(dp.reached.outs)
  {
    ready := dp.ConditionTrue(Postgres);
    var next := dp.ConditionTrue(Lakekeeper);
    ready := ready && next;
    next := dp.ConditionTrue(Auth);
    ready := ready && next;
    next := dp.ConditionTrue(OpenFGA);
    ready := ready && next;
    next := dp.ConditionTrue(Minio);
    ready := ready && next;
  }

  /** LakeKeeper, the last of the five gates. */
  method ReconcileLastGate(dp: DataPlatform, api: Api) returns (o: Outcome, ready: bool, ghost lake: seq<Call>)
    requires InPass(dp, api) && Ruled(dp, api) && FoundationsReached(dp.reached.outs) && dp.spec.lakekeeper
    modifies dp`conditions, dp`reached, api`fault, api`mark, api`secrets, api`calls, api`notes
    ensures InPass(dp, api) && dp.reached.outs == old(dp.reached.outs)[Lakekeeper := o]
    ensures Later(old(api.notes), api.notes)
    ensures api.calls == old(api.calls) + lake
    ensures lake == [] || (lake == [ApplyLakekeeper] && IsUp(dp.reached.outs, Auth) && IsUp(dp.reached.outs, OpenFGA))
    ensures o.Up? ==> lake != []
    ensures !o.Failed? ==> (ready <==> GatesUp(dp.reached.outs))
    ensures api.start.smooth ==> !o.Failed?
    ensures !o.Failed? ==> api.fault == old(api.fault)
  {
    ready := false;
    o := ReconcileLakekeeperGate(dp, api);
    lake := if api.calls == old(api.calls) then [] else [ApplyLakekeeper];
    if !o.Failed? {
      ready := GatesReady(dp);
    }
  }

  lemma GateOutcomes(outs: Outcomes, o: Outcome)
    requires outs.Keys <= {Postgres, Minio, Auth, OpenFGA} && FoundationsReached(outs)
    ensures var outs' := outs[Lakekeeper := o];
            && outs'.Keys <= {Postgres, Minio, Auth, OpenFGA, Lakekeeper} && FoundationsReached(outs')
            && (!o.Failed? ==> Reached(outs', Lakekeeper)) && (GatesUp(outs') ==> o.Up?)
  {
  }

  /** The five gates of the warehouse. */
  method ReconcileGates(dp: DataPlatform, api: Api, catalogClient: bool)
    returns (err: bool, progressing: bool, oidc: OidcConfig, fga: FgaConfig, store: ObjectStore,
             ghost ensured: seq<Call>, ghost lake: seq<Call>)
    requires InHead(dp, api) && Ruled(dp, api) && dp.reached.outs == map[] && api.calls == [] && dp.spec.lakekeeper
    requires api.jobs == api.start.jobs && (api.start.smooth ==> catalogClient)
    modifies dp`conditions, dp`reached, api`fault, api`mark, api`secrets, api`jobs, api`calls, api`notes, api`output
    ensures InHead(dp, api) && Later(old(api.notes), api.notes)
    ensures !err ==> Resolved(dp.spec, api.world, api.notes.seen, oidc, fga, store)
    ensures GatesLegal(dp.reached.outs, err, progressing)
    ensures api.calls == ensured + lake && StoreCall(ensured, fga.storeId)
    ensures lake == [] || (lake == [ApplyLakekeeper] && IsUp(dp.reached.outs, Auth) && IsUp(dp.reached.outs, OpenFGA))
    ensures !err && !progressing ==> lake != []
    ensures api.start.smooth ==> !err
    ensures !err ==> api.fault == old(api.fault)
  {
    progressing := false;
    err, oidc, fga, store := ReconcileFoundations(dp, api, catalogClient);
    ensured, lake := api.calls, [];
    if err {
      return;
    }
    var o, ready;
    ghost var seen, outs := api.notes.seen, dp.reached.outs;
    o, ready, lake := ReconcileLastGate(dp, api);
    GateOutcomes(outs, o);
    ResolvedGrows(dp.spec, api.world, seen, api.notes.seen, oidc, fga, store);
    err, progressing := o.Failed?, !ready;
  }

  ghost predicate GatesLegal(outs: Outcomes, err: bool, progressing: bool) {
    && outs.Keys <= {Postgres, Minio, Auth, OpenFGA, Lakekeeper}
    && (!err ==> FoundationsReached(outs) && Reached(outs, Lakekeeper) && (progressing <==> !GatesUp(outs)))
  }

  method ReconcileLakekeeperStack(dp: DataPlatform, api: Api, catalogClient: bool)
    returns (err: bool, progressing: bool, oidc: OidcConfig, fga: FgaConfig, store: ObjectStore)
    requires dp.spec.lakekeeper && api.jobs == api.start.jobs && (api.start.smooth ==> catalogClient)
    requires InHead(dp, api) && Ruled(dp, api) && dp.reached.outs == map[] && api.calls == []
    modifies dp`conditions, dp`reached, api`fault, api`mark, api`secrets, api`jobs, api`calls, api`notes, api`output
    ensures InHead(dp, api) && Later(old(api.notes), api.notes)
    ensures !err ==> Resolved(dp.spec, api.world, api.notes.seen, oidc, fga, store)
    ensures StackLegal(dp.reached.outs, err, progressing)
    ensures CallsLegal(dp.spec, dp.reached.outs, api.calls)
    ensures api.start.smooth ==> !err
    ensures !err ==> api.fault == old(api.fault)
  {
    ghost var ensured, lake;
    err, progressing, oidc, fga, store, ensured, lake := ReconcileGates(dp, api, catalogClient);
    err, progressing := ReconcileWarehouseStage(dp, api, oidc, fga, catalogClient, err, progressing, ensured, lake);
  }

  /** The warehouse, unless a gate is closed. */
  method ReconcileWarehouseStage(dp: DataPlatform, api: Api, oidc: OidcConfig, fga: FgaConfig, catalogClient: bool,
                                 failed: bool, waiting: bool, ghost ensured: seq<Call>, ghost lake: seq<Call>)
    returns (err: bool, progressing: bool)
    requires InPass(dp, api) && Ruled(dp, api) && GatesLegal(dp.reached.outs, failed, waiting)
    requires api.calls == ensured + lake && StoreCall(ensured, fga.storeId)
    requires lake == [] || (lake == [ApplyLakekeeper] && IsUp(dp.reached.outs, Auth) && IsUp(dp.reached.outs, OpenFGA))
    requires !failed ==> oidc.embedded == Embedded(dp.spec) && (!waiting ==> lake != [])
    requires api.start.smooth ==> catalogClient
    modifies dp`conditions, dp`reached, api`fault, api`mark, api`calls
    ensures InPass(dp, api) && (failed ==> err)
    ensures StackLegal(dp.reached.outs, err, progressing)
    ensures CallsLegal(dp.spec, dp.reached.outs, api.calls)
    ensures api.start.smooth && !failed ==> !err
    ensures !err ==> api.fault == old(api.fault)
  {
    if failed || waiting {
      NoCatalogCalls(dp.spec, dp.reached.outs, ensured, lake, fga.storeId);
      GatesClosed(dp.reached.outs, failed, waiting);
      return failed, waiting;
    }
    err, progressing := ReconcileBehindGates(dp, api, oidc, fga, catalogClient, ensured, lake);
  }

  lemma GatesClosed(outs: Outcomes, err: bool, progressing: bool)
    requires GatesLegal(outs, err, progressing) && (err || progressing)
    ensures StackLegal(outs, err, progressing)
  {
  }

  lemma {:induction false} NoCatalogCalls(spec: Spec, outs: Outcomes, ensured: seq<Call>, lake: seq<Call>, id: string)
    requires StoreCall(ensured, id) && WarehouseReady !in outs
    requires lake == [] || (lake == [ApplyLakekeeper] && IsUp(outs, Auth) && IsUp(outs, OpenFGA))
    ensures CallsLegal(spec, outs, ensured + lake)
  {
    assert ensured + lake == ensured + lake + [];
    assert CallsSplit(spec, outs, ensured + lake, ensured, lake, [], id, false);
  }

  lemma WarehouseOutcome(outs: Outcomes, o: Outcome)
    requires GatesLegal(outs, false, false)
    ensures StackLegal(outs[WarehouseReady := o], o.Failed?, o.Waiting?) && GatesUp(outs[WarehouseReady := o])
  {
  }

  method ReconcileBehindGates(dp: DataPlatform, api: Api, oidc: OidcConfig, fga: FgaConfig, catalogClient: bool,
                              ghost ensured: seq<Call>, ghost lake: seq<Call>)
    returns (err: bool, progressing: bool)
    requires InPass(dp, api) && Ruled(dp, api) && GatesLegal(dp.reached.outs, false, false)
    requires api.calls == ensured + lake && StoreCall(ensured, fga.storeId) && lake == [ApplyLakekeeper]
    requires oidc.embedded == Embedded(dp.spec) && (api.start.smooth ==> catalogClient)
    modifies dp`conditions, dp`reached, api`fault, api`mark, api`calls
    ensures InPass(dp, api)
    ensures StackLegal(dp.reached.outs, err, progressing)
    ensures CallsLegal(dp.spec, dp.reached.outs, api.calls)
    ensures api.start.smooth ==> !err
    ensures !err ==> api.fault == old(api.fault)
  {
    var o, members;
    ghost var catalog, gates := [], dp.reached.outs;
    o, members, catalog := ReconcileWarehouse(dp, api, oidc, fga, catalogClient);
    WarehouseOutcome(gates, o);
    assert CallsSplit(dp.spec, dp.reached.outs, api.calls, ensured, lake, catalog, fga.storeId, members);
    err, progressing := o.Failed?, o.Waiting?;
  }

  method SetDisabled(dp: DataPlatform, first: Cond, second: Cond)
    requires !dp.spec.lakekeeper && dp.Valid()
    requires {first, second} <= {Minio, Postgres, Lakekeeper, WarehouseReady, OpenFGA, Auth}
    modifies dp`conditions, dp`reached
    ensures dp.Valid() && dp.reached == old(dp.reached).(outs := old(dp.reached.outs)[first := Up][second := Up])
  {
    dp.SetOutcome(first, Up, dp.reached.facts);
    dp.SetOutcome(second, Up, dp.reached.facts);
  }

  method DisableCatalog(dp: DataPlatform)
    requires !dp.spec.lakekeeper && dp.Valid() && dp.reached.outs == map[]
    modifies dp`conditions, dp`reached
    ensures dp.Valid() && dp.reached.facts == old(dp.reached.facts)
    ensures dp.reached.outs == map[Minio := Up, Postgres := Up, Lakekeeper := Up, WarehouseReady := Up]
  {
    SetDisabled(dp, Minio, Postgres);
    SetDisabled(dp, Lakekeeper, WarehouseReady);
  }

  method LakekeeperDisabled(dp: DataPlatform)
    requires !dp.spec.lakekeeper && dp.Valid() && dp.reached.outs == map[]
    modifies dp`conditions, dp`reached
    ensures dp.Valid() && DisabledLegal(dp.spec, dp.reached.outs) && dp.reached.facts == old(dp.reached.facts)
  {
    DisableCatalog(dp);
    var last := if dp.spec.auth then OpenFGA else Auth;
    DisabledOutcomes(dp.spec, dp.reached.outs, last);
    SetDisabled(dp, OpenFGA, last);
  }

  lemma DisabledOutcomes(spec: Spec, outs: Outcomes, last: Cond)
    requires outs == map[Minio := Up, Postgres := Up, Lakekeeper := Up, WarehouseReady := Up]
    requires last == if spec.auth then OpenFGA else Auth
    ensures DisabledLegal(spec, outs[OpenFGA := Up][last := Up])
  {
  }

  ghost predicate DisabledLegal(spec: Spec, outs: Outcomes) {
    && IsUp(outs, Minio) && IsUp(outs, Postgres) && IsUp(outs, Lakekeeper)
    && IsUp(outs, WarehouseReady) && IsUp(outs, OpenFGA)
    && (Auth in outs <==> !spec.auth) && (Auth in outs ==> IsUp(outs, Auth))
  }
}

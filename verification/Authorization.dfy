/** OpenFGA and the store of the access policies. */
module Authorization {
  import opened Cluster
  import opened Platform
  import Foundations

  ghost predicate StoreCall(calls: seq<Call>, storeId: string) {
    && (calls == [] || (|calls| == 1 && calls[0].EnsureStore?))
    && (storeId != "" ==> calls == [EnsureStore(storeId)])
  }

  method ReconcileAccessStore(dp: DataPlatform, api: Api, catalogClient: bool) returns (ok: bool, id: string)
    requires api.Valid() && api.calls == []
    modifies api`fault, api`calls
    ensures api.Valid() && StoreCall(api.calls, id)
    ensures ok && dp.spec.accessPolicies && dp.spec.trino ==> api.calls == [EnsureStore(id)]
    ensures !(dp.spec.accessPolicies && dp.spec.trino) ==> ok && id == "" && api.calls == []
    ensures api.world.healthy && catalogClient ==> ok
    ensures ok ==> api.fault == old(api.fault)
  {
    id := "";
    if !dp.spec.accessPolicies || !dp.spec.trino {
      return true, "";
    }
    if !catalogClient {
      return false, "";
    }
    ok := api.Request();
    if ok {
      id := *;
      api.Record(EnsureStore(id));
    }
  }

  method EnsureOpenFGASecrets(api: Api, ns: string) returns (ok: bool)
    requires api.Valid()
    modifies api`fault, api`secrets, api`notes
    ensures api.Valid() && Later(old(api.notes), api.notes)
    ensures ok ==> (ns, OpenFGAKey) in api.notes.made && (ns, PostgresLogin) in api.notes.made
    ensures api.world.healthy ==> ok
    ensures ok ==> api.fault == old(api.fault)
  {
    var apiKey: string;
    ok, apiKey := api.Random();
    if ok {
      ok := api.EnsureGeneratedSecret(ns, OpenFGAKey, map[ApiKey := apiKey]);
    }
    if ok {
      ok := Foundations.EnsurePostgres(api, ns, "postgres");
    }
  }

  /** OpenFGA's database. */
  method ReconcileFgaDatabase(api: Api, ns: string) returns (o: Outcome)
    requires api.Valid()
    modifies api`fault, api`secrets, api`notes
    ensures api.Valid() && Later(old(api.notes), api.notes)
    ensures !o.Failed? ==> (ns, OpenFGAKey) in api.notes.made && (ns, PostgresLogin) in api.notes.made
    ensures o.Failed? || o == OutcomeOf(AnswerOf(api.world.workloads, ns, PostgresSet))
    ensures api.world.healthy ==> o == OutcomeOf(AnswerOf(api.world.workloads, ns, PostgresSet))
    ensures !o.Failed? ==> api.fault == old(api.fault)
  {
    var ok := api.Request();
    if ok {
      ok := EnsureOpenFGASecrets(api, ns);
    }
    if ok {
      ok := api.Request();
    }
    o := Finish(api, ok, ns, PostgresSet);
  }

  /** OpenFGA's server, and with access policies the store. */
  method ReconcileFgaServer(dp: DataPlatform, api: Api, catalogClient: bool)
    returns (o: Outcome, id: string, seen: bool)
    requires api.Valid() && api.calls == []
    modifies api`fault, api`calls, api`notes
    ensures api.Valid() && StoreCall(api.calls, id) && Later(old(api.notes), api.notes) && (!o.Failed? ==> seen)
    ensures o.Waiting? ==> Starting(api.world.workloads, dp.spec.openfgaNs, OpenFGADeployment)
    ensures o.Up? ==> Serving(api.world.workloads, dp.spec.openfgaNs, OpenFGADeployment)
    ensures o.Up? && dp.spec.accessPolicies && dp.spec.trino ==> api.calls == [EnsureStore(id)]
    ensures var ns := dp.spec.openfgaNs;
            && api.world.healthy && catalogClient && Present(api.world.workloads, ns, OpenFGADeployment)
            && Readable(api.secrets, (ns, OpenFGAKey, ApiKey))
            ==> !o.Failed?
    ensures !o.Failed? ==> api.fault == old(api.fault)
  {
    id := "";
    var ns := dp.spec.openfgaNs;
    var ok := api.Request();
    var apiKey: string;
    if ok {
      ok, apiKey := api.GetSecretData(ns, OpenFGAKey, ApiKey);
    }
    seen := ok;
    o := Finish(api, ok, ns, OpenFGADeployment);
    if o.Up? {
      ok, id := ReconcileAccessStore(dp, api, catalogClient);
      o := if ok then Up else Failed;
    }
  }

  method ReconcileOpenFGA(dp: DataPlatform, api: Api, catalogClient: bool) returns (o: Outcome, fga: FgaConfig)
    requires api.Valid() && api.calls == []
    modifies api`fault, api`secrets, api`calls, api`notes
    ensures api.Valid() && StoreCall(api.calls, fga.storeId) && Later(old(api.notes), api.notes)
    ensures var w, ns := api.world.workloads, dp.spec.openfgaNs;
            && (o.Up? ==> Serving(w, ns, PostgresSet) && Serving(w, ns, OpenFGADeployment))
            && (o.Waiting? ==> Starting(w, ns, PostgresSet) || Starting(w, ns, OpenFGADeployment))
            && (!o.Failed? ==> fga.enabled && (fga.opaUrl <==> Serving(w, ns, PostgresSet)))
    ensures o.Up? && dp.spec.accessPolicies && dp.spec.trino ==> api.calls == [EnsureStore(fga.storeId)]
    ensures !o.Failed? ==>
              (dp.spec.openfgaNs, OpenFGAKey) in api.notes.made && (dp.spec.openfgaNs, PostgresLogin) in api.notes.made
    ensures var w, ns := api.world.workloads, dp.spec.openfgaNs;
            && api.world.healthy && catalogClient && Present(w, ns, PostgresSet) && Present(w, ns, OpenFGADeployment)
            && ((ns, OpenFGAKey) in api.secrets ==> ApiKey in api.secrets[(ns, OpenFGAKey)])
            ==> !o.Failed?
    ensures !o.Failed? ==> api.fault == old(api.fault)
  {
    fga := NO_FGA;
    o := ReconcileFgaDatabase(api, dp.spec.openfgaNs);
    if !o.Up? {
      fga := FgaConfig(o.Waiting?, false, "");
      return;
    }
    MadeThere(api, (dp.spec.openfgaNs, OpenFGAKey));
    var id, seen;
    o, id, seen := ReconcileFgaServer(dp, api, catalogClient);
    fga := FgaConfig(seen, seen, id);
  }

  ghost predicate AuthzEnd(spec: Spec, world: World, catalogClient: bool, readable: bool, made: set<Key>,
                           o: Outcome, fga: FgaConfig) {
    var w, ns := world.workloads, spec.openfgaNs;
    && (!o.Failed? ==> FgaResolved(spec, w, fga))
    && (spec.authz && spec.authzEmbedded && !o.Failed? ==> (ns, OpenFGAKey) in made && (ns, PostgresLogin) in made)
    && (o.Up? && spec.authz ==> Serving(w, ns, PostgresSet) && Serving(w, ns, OpenFGADeployment))
    && (o.Waiting? ==>
          && spec.authz && spec.authzEmbedded
          && (Starting(w, ns, PostgresSet) || Starting(w, ns, OpenFGADeployment)))
    && (spec.authz && !spec.authzEmbedded ==> o.Failed?)
    && (world.healthy && catalogClient && readable
        && (spec.authz ==>
              spec.authzEmbedded && Present(w, ns, PostgresSet) && Present(w, ns, OpenFGADeployment))
        ==> !o.Failed?)
  }

  method AuthzOutcome(dp: DataPlatform, api: Api, catalogClient: bool) returns (o: Outcome, fga: FgaConfig)
    requires api.Valid() && api.calls == []
    modifies api`fault, api`secrets, api`calls, api`notes
    ensures api.Valid() && StoreCall(api.calls, fga.storeId) && Later(old(api.notes), api.notes)
    ensures AuthzEnd(dp.spec, api.world, catalogClient,
                     WholeIfThere(api.secrets, (dp.spec.openfgaNs, OpenFGAKey)), api.notes.made, o, fga)
    ensures !o.Failed? ==> api.fault == old(api.fault)
  {
    fga := NO_FGA;
    if !dp.spec.authz {
      o := Up;
    } else if !dp.spec.authzEmbedded {
      o := Failed;
    } else {
      o, fga := ReconcileOpenFGA(dp, api, catalogClient);
    }
  }

  lemma AuthzFits(spec: Spec, world: World, smooth: bool, calm: bool, catalogClient: bool,
                  readable: bool, done: Facts, o: Outcome, fga: FgaConfig)
    requires AuthzEnd(spec, world, catalogClient, readable, done.made, o, fga) && spec.lakekeeper
    requires Paced(spec, world, smooth, calm, OpenFGA)
    requires smooth ==> readable && catalogClient && (spec.authz ==> spec.authzEmbedded)
    ensures Fits(spec, world.workloads, calm, OpenFGA, o, done) && (smooth ==> !o.Failed?)
  {
  }

  lemma AuthzSettles(dp: DataPlatform, api: Api, catalogClient: bool, o: Outcome, fga: FgaConfig)
    requires Ruled(dp, api)
    requires api.Valid() && dp.spec.lakekeeper && (api.start.smooth ==> catalogClient)
    requires AuthzEnd(dp.spec, api.world, catalogClient,
                      WholeIfThere(api.secrets, (dp.spec.openfgaNs, OpenFGAKey)), api.notes.made, o, fga)
    ensures Fits(dp.spec, api.world.workloads, dp.pass.calm, OpenFGA, o, Done(api)) && (api.start.smooth ==> !o.Failed?)
    ensures !o.Failed? ==> FgaResolved(dp.spec, api.world.workloads, fga)
    ensures var w, ns := api.world.workloads, dp.spec.openfgaNs;
            o.Waiting? ==>
              && dp.spec.authz && dp.spec.authzEmbedded
              && (Starting(w, ns, PostgresSet) || Starting(w, ns, OpenFGADeployment))
  {
    assert Agreed(RulesOf(dp, api));
    PaceOf(dp, api, OpenFGA);
    SmoothWhole(dp, api, (dp.spec.openfgaNs, OpenFGAKey));
    AuthzFits(dp.spec, api.world, api.start.smooth, dp.pass.calm, catalogClient,
              WholeIfThere(api.secrets, (dp.spec.openfgaNs, OpenFGAKey)), Done(api), o, fga);
  }

  method ReconcileAuthz(dp: DataPlatform, api: Api, catalogClient: bool) returns (o: Outcome, fga: FgaConfig)
    requires InPass(dp, api) && Ruled(dp, api) && api.calls == []
    requires dp.spec.lakekeeper && (api.start.smooth ==> catalogClient)
    modifies dp`conditions, dp`reached, api`fault, api`mark, api`secrets, api`calls, api`notes
    ensures InPass(dp, api) && dp.reached.outs == old(dp.reached.outs)[OpenFGA := o] && Later(old(api.notes), api.notes)
    ensures StoreCall(api.calls, fga.storeId)
    ensures !o.Failed? ==> FgaResolved(dp.spec, api.world.workloads, fga)
    ensures var w, ns := api.world.workloads, dp.spec.openfgaNs;
            o.Waiting? ==>
              && dp.spec.authz && dp.spec.authzEmbedded
              && (Starting(w, ns, PostgresSet) || Starting(w, ns, OpenFGADeployment))
    ensures api.start.smooth ==> !o.Failed?
    ensures !o.Failed? ==> api.fault == old(api.fault)
  {
    o, fga := AuthzOutcome(dp, api, catalogClient);
    AuthzSettles(dp, api, catalogClient, o, fga);
    Settle(dp, api, OpenFGA, o);
  }
}

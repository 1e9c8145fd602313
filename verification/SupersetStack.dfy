/** Superset with its database and Redis. */
module SupersetStack {
  import opened Wrappers
  import opened Cluster
  import opened Platform
  import Foundations

  /** The clients Superset is given. */
  function SupersetClients(oidc: OidcConfig): Data {
    map[SupersetClientId := oidc.supersetId, SupersetClientSecret := oidc.supersetSecret,
        TrinoClientId := oidc.clientId, TrinoClientSecret := oidc.clientSecret]
  }

  /** With an identity provider, Superset's Secret holds Superset's client and Trino's, and
      without one it is as it was. */
  ghost predicate ClientsStored(before: Secrets, secrets: Secrets, ns: string, oidc: OidcConfig) {
    var key := (ns, SupersetOidc);
    if oidc.enabled then
      && key in secrets
      && SupersetClientId in secrets[key] && secrets[key][SupersetClientId] == oidc.supersetId
      && SupersetClientSecret in secrets[key] && secrets[key][SupersetClientSecret] == oidc.supersetSecret
      && TrinoClientId in secrets[key] && secrets[key][TrinoClientId] == oidc.clientId
      && TrinoClientSecret in secrets[key] && secrets[key][TrinoClientSecret] == oidc.clientSecret
    else Unchanged(before, secrets, key)
  }

  /** The database's Secret and Superset's key. */
  method EnsureSupersetKeys(api: Api, ns: string) returns (ok: bool)
    requires api.Valid()
    modifies api`fault, api`secrets, api`notes
    ensures api.Valid() && Later(old(api.notes), api.notes)
    ensures ok ==> (ns, PostgresLogin) in api.notes.made && (ns, SupersetKey) in api.notes.made
    ensures Unchanged(old(api.secrets), api.secrets, (ns, SupersetOidc))
    ensures api.world.healthy ==> ok
    ensures ok ==> api.fault == old(api.fault)
  {
    var key: string;
    ok := Foundations.EnsurePostgres(api, ns, "superset");
    assert Unchanged(old(api.secrets), api.secrets, (ns, SupersetOidc));
    if ok {
      ok, key := api.Random();
    }
    if ok {
      ok := api.EnsureGeneratedSecret(ns, SupersetKey, map[CookieKey := key]);
    }
  }

  method EnsureSupersetSecrets(api: Api, ns: string, oidc: OidcConfig) returns (ok: bool)
    requires api.Valid()
    modifies api`fault, api`secrets, api`notes
    ensures api.Valid() && Later(old(api.notes), api.notes)
    ensures ok ==> (ns, PostgresLogin) in api.notes.made && (ns, SupersetKey) in api.notes.made
    ensures ok ==> ClientsStored(old(api.secrets), api.secrets, ns, oidc)
    ensures api.world.healthy ==> ok
    ensures ok ==> api.fault == old(api.fault)
  {
    ok := EnsureSupersetKeys(api, ns);
    if ok && oidc.enabled {
      ok := api.MergeSecret(ns, SupersetOidc, SupersetClients(oidc));
    }
  }

  lemma SupersetLawful(dp: DataPlatform, api: Api)
    requires Ruled(dp, api) && api.Valid() && (dp.spec.supersetNs, PostgresLogin, Password) in api.notes.seen
    ensures var config := dp.spec.supersetConfig(SupersetIn(dp.spec, api.notes.seen));
            var texts := SupersetTexts(config, dp.spec.supersetBootstrap);
            api.start.law(api.notes.seen, api.output.(superset := Some(texts)))
  {
    var config := dp.spec.supersetConfig(SupersetIn(dp.spec, api.notes.seen));
    Lawful(dp, api, api.output.(superset := Some(SupersetTexts(config, dp.spec.supersetBootstrap))));
  }

  method HashSuperset(dp: DataPlatform, api: Api) returns (ok: bool)
    requires InPass(dp, api) && Ruled(dp, api)
    modifies api`fault, api`notes, api`output
    ensures InPass(dp, api) && Later(old(api.notes), api.notes)
    ensures ok ==> api.output.superset.Some?
    ensures api.world.healthy && Readable(api.secrets, (dp.spec.supersetNs, PostgresLogin, Password)) ==> ok
    ensures ok ==> api.fault == old(api.fault)
  {
    var password;
    ok, password := api.GetSecretData(dp.spec.supersetNs, PostgresLogin, Password);
    if ok {
      SupersetLawful(dp, api);
      var texts := SupersetTexts(dp.spec.supersetConfig(password), dp.spec.supersetBootstrap);
      api.Emit(api.output.(superset := Some(texts)));
    }
  }

  /** In a smooth pass Superset's credentials can be read. */
  lemma SupersetReadable(dp: DataPlatform, api: Api)
    requires Ruled(dp, api) && api.Valid() && (dp.spec.supersetNs, PostgresLogin) in api.notes.made
    ensures api.start.smooth ==> Readable(api.secrets, (dp.spec.supersetNs, PostgresLogin, Password))
  {
    SmoothWhole(dp, api, (dp.spec.supersetNs, PostgresLogin));
    MadeThere(api, (dp.spec.supersetNs, PostgresLogin));
  }

  ghost predicate SupersetMade(spec: Spec, made: set<Key>) {
    (spec.supersetNs, PostgresLogin) in made && (spec.supersetNs, SupersetKey) in made
  }

  ghost predicate SupersetDone(spec: Spec, notes: Notes, superset: Option<SupersetTexts>) {
    SupersetMade(spec, notes.made) && superset.Some?
  }

  method ApplySuperset(dp: DataPlatform, api: Api, oidc: OidcConfig) returns (ok: bool)
    requires InPass(dp, api) && Ruled(dp, api)
    modifies api`fault, api`secrets, api`notes, api`output
    ensures InPass(dp, api) && Later(old(api.notes), api.notes)
    ensures ok ==> SupersetDone(dp.spec, api.notes, api.output.superset)
    ensures ok ==> ClientsStored(old(api.secrets), api.secrets, dp.spec.supersetNs, oidc)
    ensures api.start.smooth ==> ok
    ensures ok ==> api.fault == old(api.fault)
  {
    PaceOf(dp, api, Superset);
    ok := EnsureSupersetSecrets(api, dp.spec.supersetNs, oidc);
    if ok {
      SupersetReadable(dp, api);
      ok := api.Request(); // database and Redis
    }
    if ok {
      ok := HashSuperset(dp, api);
    }
    if ok {
      ok := api.Request();
    }
  }

  /** The first of the three that is not ready decides. */
  ghost predicate SupersetEnd(w: Workloads, ns: string, applied: bool, o: Outcome) {
    o == if !applied then Failed
         else if !Serving(w, ns, PostgresSet) then OutcomeOf(AnswerOf(w, ns, PostgresSet))
         else if !Serving(w, ns, RedisDeployment) then OutcomeOf(AnswerOf(w, ns, RedisDeployment))
         else OutcomeOf(AnswerOf(w, ns, SupersetDeployment))
  }

  /** Database, Redis and Superset, in this order. */
  method SupersetReadiness(api: Api, applied: bool, ns: string) returns (o: Outcome)
    ensures SupersetEnd(api.world.workloads, ns, applied, o)
  {
    o := Finish(api, applied, ns, PostgresSet);
    if o.Up? {
      o := Finish(api, true, ns, RedisDeployment);
    }
    if o.Up? {
      o := Finish(api, true, ns, SupersetDeployment);
    }
  }

  lemma SupersetSettles(dp: DataPlatform, api: Api, applied: bool, o: Outcome)
    requires Ruled(dp, api)
    requires SupersetEnd(api.world.workloads, dp.spec.supersetNs, applied, o)
    requires applied ==> SupersetDone(dp.spec, api.notes, api.output.superset)
    requires dp.spec.superset && (api.start.smooth ==> applied)
    ensures Fits(dp.spec, api.world.workloads, dp.pass.calm, Superset, o, Done(api))
    ensures (api.start.smooth ==> !o.Failed?)
    ensures !o.Failed? ==> applied
    ensures o.Waiting? ==>
              || Starting(api.world.workloads, dp.spec.supersetNs, PostgresSet)
              || Starting(api.world.workloads, dp.spec.supersetNs, RedisDeployment)
              || Starting(api.world.workloads, dp.spec.supersetNs, SupersetDeployment)
  {
    PaceOf(dp, api, Superset);
    SupersetFits(dp.spec, api.world, api.start.smooth, dp.pass.calm, applied, Done(api), o);
  }

  method ReconcileSuperset(dp: DataPlatform, api: Api, oidc: OidcConfig) returns (o: Outcome)
    requires InPass(dp, api) && Ruled(dp, api) && dp.spec.superset
    modifies dp`conditions, dp`reached, api`fault, api`mark, api`secrets, api`notes, api`output
    ensures InPass(dp, api) && dp.reached.outs == old(dp.reached.outs)[Superset := o]
    ensures Later(old(api.notes), api.notes)
    ensures o.Waiting? ==>
              || Starting(api.world.workloads, dp.spec.supersetNs, PostgresSet)
              || Starting(api.world.workloads, dp.spec.supersetNs, RedisDeployment)
              || Starting(api.world.workloads, dp.spec.supersetNs, SupersetDeployment)
    ensures !o.Failed? ==> ClientsStored(old(api.secrets), api.secrets, dp.spec.supersetNs, oidc)
    ensures api.start.smooth ==> !o.Failed?
    ensures !o.Failed? ==> api.fault == old(api.fault)
  {
    var ok := ApplySuperset(dp, api, oidc);
    o := SupersetReadiness(api, ok, dp.spec.supersetNs);
    SupersetSettles(dp, api, ok, o);
    Settle(dp, api, Superset, o);
  }

  lemma SupersetFits(spec: Spec, world: World, smooth: bool, calm: bool, applied: bool, done: Facts,
                     o: Outcome)
    requires SupersetEnd(world.workloads, spec.supersetNs, applied, o)
    requires applied ==> SupersetMade(spec, done.made) && done.superset
    requires Paced(spec, world, smooth, calm, Superset) && spec.superset && (smooth ==> applied)
    ensures Fits(spec, world.workloads, calm, Superset, o, done) && (smooth ==> !o.Failed?)
    ensures !o.Failed? ==> applied
    ensures o.Waiting? ==>
              || Starting(world.workloads, spec.supersetNs, PostgresSet)
              || Starting(world.workloads, spec.supersetNs, RedisDeployment)
              || Starting(world.workloads, spec.supersetNs, SupersetDeployment)
  {
  }

  method ReconcileSupersetStack(dp: DataPlatform, api: Api, oidc: OidcConfig) returns (err: bool)
    requires InPass(dp, api) && Ruled(dp, api)
    modifies dp`conditions, dp`reached, api`fault, api`mark, api`secrets, api`notes, api`output
    ensures InPass(dp, api) && Later(old(api.notes), api.notes)
    ensures Touched(old(dp.reached.outs), dp.reached.outs, Superset) && (!err ==> Reached(dp.reached.outs, Superset))
    ensures api.start.smooth ==> !err
    ensures !err ==> api.fault == old(api.fault)
  {
    if !dp.spec.superset {
      Settle(dp, api, Superset, Up);
      return false;
    }
    PaceOf(dp, api, Superset);
    var ok := api.Request(); // namespace
    if !ok {
      return true;
    }
    var o := ReconcileSuperset(dp, api, oidc);
    err := o.Failed?;
  }
}

/** The sample data, seeded once the warehouse and Trino are ready. */
module Seeding {
  import opened Cluster
  import opened Platform

  /** The password the seed Job logs in with, before the Job is created. */
  method SeedPassword(api: Api, spec: Spec, oidc: OidcConfig) returns (ok: bool)
    requires api.Valid()
    modifies api`fault, api`secrets, api`notes
    ensures api.Valid() && Later(old(api.notes), api.notes)
    ensures ok && oidc.enabled && OAuthOn(spec) && (spec.trinoNs, SampleJob) !in api.jobs ==>
              SeedLogin(spec, api.secrets)
    ensures var admin := (spec.keycloakNs, KeycloakAdmin, Password);
            api.world.healthy && (oidc.enabled && OAuthOn(spec) ==> Readable(old(api.secrets), admin)) ==> ok
    ensures ok ==> api.fault == old(api.fault)
  {
    ok := true;
    if oidc.enabled && OAuthOn(spec) && (spec.trinoNs, SampleJob) !in api.jobs {
      var password: string;
      ok, password := api.GetSecretData(spec.keycloakNs, KeycloakAdmin, Password);
      if ok {
        ok := api.MergeSecret(spec.trinoNs, SampleDataOidc, map[Password := password]);
      }
    }
  }

  /** The seed Job logs in with the password of Keycloak's admin. */
  ghost predicate SeedLogin(spec: Spec, secrets: Secrets) {
    var admin, login := (spec.keycloakNs, KeycloakAdmin), (spec.trinoNs, SampleDataOidc);
    && Readable(secrets, (admin.0, admin.1, Password)) && Readable(secrets, (login.0, login.1, Password))
    && secrets[login][Password] == secrets[admin][Password]
  }

  method SeedSampleData(api: Api, spec: Spec, oidc: OidcConfig) returns (o: Outcome)
    requires api.Valid() && api.start.hash == spec.seedHash
    modifies api`fault, api`secrets, api`jobs, api`notes
    ensures api.Valid() && Later(old(api.notes), api.notes)
    ensures o.Up? ==> JobDone(api.jobs, spec.trinoNs, SampleJob)
    ensures o.Waiting? ==> !JobDone(old(api.jobs), spec.trinoNs, SampleJob)
    ensures !o.Failed? ==> JobVisited(old(api.jobs), api.jobs, (spec.trinoNs, SampleJob), spec.seedHash, o.Up?)
    ensures oidc.enabled && OAuthOn(spec) && (spec.trinoNs, SampleJob) in api.jobs ==>
              (spec.trinoNs, SampleJob) in old(api.jobs) || SeedLogin(spec, api.secrets)
    ensures var admin := (spec.keycloakNs, KeycloakAdmin, Password);
            api.world.healthy && (oidc.enabled && OAuthOn(spec) ==> Readable(old(api.secrets), admin)) ==> !o.Failed?
    ensures !o.Failed? ==> api.fault == old(api.fault)
  {
    var ok := api.Request(); // config map
    if ok {
      ok := SeedPassword(api, spec, oidc);
    }
    if !ok {
      return Failed;
    }
    var a := api.EnsureJob(spec.trinoNs, SampleJob, spec.seedHash);
    o := if a.Error? then Failed else if a.Yes? then Up else Waiting;
  }

  /** What the stage relies on: the provider as the spec says, and Keycloak's admin. */
  ghost predicate SeedReady(spec: Spec, oidc: OidcConfig, notes: Notes) {
    oidc.enabled == OidcOn(spec) && (Embedded(spec) ==> (spec.keycloakNs, KeycloakAdmin) in notes.made)
  }

  lemma AdminReadable(dp: DataPlatform, api: Api)
    requires Ruled(dp, api) && api.Valid() && (dp.spec.keycloakNs, KeycloakAdmin) in api.notes.made
    ensures api.start.smooth ==> Readable(api.secrets, (dp.spec.keycloakNs, KeycloakAdmin, Password))
  {
    SmoothWhole(dp, api, (dp.spec.keycloakNs, KeycloakAdmin));
    MadeThere(api, (dp.spec.keycloakNs, KeycloakAdmin));
  }

  lemma DoneKept(dp: DataPlatform, api: Api)
    requires Ruled(dp, api) && api.Valid() && SeedingEnabled(dp.spec)
    ensures dp.pass.calm ==> JobDone(api.jobs, dp.spec.trinoNs, SampleJob)
  {
    var t, key := api.Now(), (dp.spec.trinoNs, SampleJob);
    assert Agreed(RulesOf(dp, api)) && Legal(t);
    if dp.pass.calm {
      assert JobStep(SampleJob, t.start.jobs[key], t.jobs[key], t.start.hash);
    }
  }

  /** The outcome of the stage. The warehouse condition it waits for may be a leftover of an
      earlier pass. */
  method SampleDataOutcome(dp: DataPlatform, api: Api, oidc: OidcConfig) returns (o: Outcome)
    requires InPass(dp, api) && Ruled(dp, api) && SeedReady(dp.spec, oidc, api.notes)
    modifies api`fault, api`secrets, api`jobs, api`notes
    ensures InPass(dp, api) && Later(old(api.notes), api.notes)
    ensures o.Up? && SeedingEnabled(dp.spec) ==> SeedDone(dp.spec, dp.conditions, api.jobs)
    ensures o.Waiting? ==> SeedingEnabled(dp.spec) && !SeedDone(dp.spec, dp.conditions, old(api.jobs))
    ensures !o.Failed? && SeedingEnabled(dp.spec) && SeedGates(dp.conditions) ==>
              JobVisited(old(api.jobs), api.jobs, (dp.spec.trinoNs, SampleJob), dp.spec.seedHash, o.Up?)
    ensures api.start.smooth ==> !o.Failed?
    ensures dp.pass.calm && (SeedingEnabled(dp.spec) ==> SeedGates(dp.conditions)) ==> o.Up?
    ensures !o.Failed? ==> api.fault == old(api.fault)
  {
    if !dp.spec.trino || !dp.spec.lakekeeper || !dp.spec.sampleData {
      return Up;
    }
    if dp.spec.auth && !dp.spec.authEmbedded {
      return Up;
    }
    var warehouseReady := dp.IsTrue(WarehouseReady);
    var trinoReady := dp.IsTrue(Trino);
    if !warehouseReady || !trinoReady {
      return Waiting;
    }
    PaceOf(dp, api, SampleData);
    if Embedded(dp.spec) {
      AdminReadable(dp, api);
    }
    DoneKept(dp, api);
    SeedHash(dp, api);
    o := SeedSampleData(api, dp.spec, oidc);
  }

  ghost predicate SeedGates(conditions: Conditions) {
    True(conditions, WarehouseReady) && True(conditions, Trino)
  }

  /** What sample data that is ready rests on. */
  ghost predicate SeedDone(spec: Spec, conditions: Conditions, jobs: Jobs) {
    SeedGates(conditions) && JobDone(jobs, spec.trinoNs, SampleJob)
  }

  /** In a calm pass, the stages that were reached have their conditions True. */
  lemma UpIsTrue(dp: DataPlatform)
    requires dp.Valid()
    ensures dp.pass.calm && WarehouseReady in dp.reached.outs && Trino in dp.reached.outs ==> SeedGates(dp.conditions)
  {
    assert Tidy(dp.Now());
    assert WarehouseReady in dp.reached.outs ==> WarehouseReady in Written(dp.reached.outs, dp.generation);
    assert Trino in dp.reached.outs ==> Trino in Written(dp.reached.outs, dp.generation);
  }

  method ReconcileSampleData(dp: DataPlatform, api: Api, oidc: OidcConfig) returns (o: Outcome)
    requires InPass(dp, api) && Ruled(dp, api) && SeedReady(dp.spec, oidc, api.notes)
    requires dp.pass.calm && SeedingEnabled(dp.spec) ==> WarehouseReady in dp.reached.outs && Trino in dp.reached.outs
    modifies dp`conditions, dp`reached, api`fault, api`mark, api`secrets, api`jobs, api`notes
    ensures InPass(dp, api) && dp.reached.outs == old(dp.reached.outs)[SampleData := o]
    ensures Later(old(api.notes), api.notes)
    ensures o.Up? && SeedingEnabled(dp.spec) ==> SeedDone(dp.spec, old(dp.conditions), api.jobs)
    ensures o.Waiting? ==> SeedingEnabled(dp.spec) && !SeedDone(dp.spec, old(dp.conditions), old(api.jobs))
    ensures !o.Failed? && SeedingEnabled(dp.spec) && SeedGates(old(dp.conditions)) ==>
              JobVisited(old(api.jobs), api.jobs, (dp.spec.trinoNs, SampleJob), dp.spec.seedHash, o.Up?)
    ensures api.start.smooth ==> !o.Failed?
    ensures !o.Failed? ==> api.fault == old(api.fault)
  {
    UpIsTrue(dp);
    o := SampleDataOutcome(dp, api, oidc);
    Settle(dp, api, SampleData, o);
  }
}

/** The identity provider: Keycloak, an external one, or none. */
module Identity {
  import opened Wrappers
  import opened Cluster
  import opened Platform

  const OIDC_KEYS: seq<(Secret, Field)> := [
    (Oidc, OperatorClientId), (Oidc, OperatorClientSecret), (Oidc, TrinoClientId), (Oidc, TrinoClientSecret),
    (Oidc, ClientId), (Oidc, OpaClientId), (Oidc, OpaClientSecret),
    (Oidc, SupersetClientId), (Oidc, SupersetClientSecret)]

  /** Before OPA's copy is written. */
  method EnsureOidcSecret(api: Api, ns: string) returns (ok: bool)
    requires api.Valid() && api.notes.opaWrites == {}
    modifies api`fault, api`secrets, api`notes
    ensures api.Valid() && Later(old(api.notes), api.notes)
    ensures ok ==> (ns, Oidc) in api.secrets && (ns, Oidc) in api.notes.made
    ensures ok ==> (ns, Oidc) in api.secrets && ADDED <= api.secrets[(ns, Oidc)].Keys
    ensures ok && (ns, Oidc) !in old(api.secrets) ==> Fresh(Oidc, api.secrets[(ns, Oidc)])
    ensures (ns, Oidc) in old(api.secrets) ==>
              && (ns, Oidc) in api.secrets && Keeps(old(api.secrets)[(ns, Oidc)], api.secrets[(ns, Oidc)])
              && (ok ==> UpgradedIds(old(api.secrets)[(ns, Oidc)], api.secrets[(ns, Oidc)]))
    ensures api.world.healthy ==> ok
    ensures ok ==> api.fault == old(api.fault)
  {
    if (ns, Oidc) in api.secrets {
      ok := api.EnsureOIDCSecretKeys(ns);
      return;
    }
    var secrets: seq<string>;
    ok, secrets := api.Randoms(4);
    if ok {
      ok := api.EnsureGeneratedSecret(ns, Oidc, map[
        ClientId := "lakekeeper", TrinoClientId := "trino", TrinoClientSecret := secrets[0],
        OperatorClientId := "operator", OperatorClientSecret := secrets[1],
        OpaClientId := "opa", OpaClientSecret := secrets[2],
        SupersetClientId := "superset", SupersetClientSecret := secrets[3]]);
    }
  }

  method EnsureRealmSecrets(api: Api, ns: string) returns (ok: bool)
    requires api.Valid()
    modifies api`fault, api`secrets, api`notes
    ensures api.Valid() && Later(old(api.notes), api.notes)
    ensures ok ==> (ns, RealmKey) in api.notes.made && (ns, KeycloakAdmin) in api.notes.made
    ensures (ns, Oidc) in old(api.secrets) ==>
              (ns, Oidc) in api.secrets && api.secrets[(ns, Oidc)] == old(api.secrets)[(ns, Oidc)]
    ensures (ns, Oidc) in api.secrets ==> (ns, Oidc) in old(api.secrets)
    ensures api.world.healthy ==> ok
    ensures ok ==> api.fault == old(api.fault)
  {
    var values: seq<string>;
    ok, values := api.Randoms(3);
    if ok {
      ok := api.EnsureGeneratedSecret(ns, RealmKey, map[PrivateKey := values[0], Certificate := values[1]]);
    }
    if ok {
      ok := api.EnsureGeneratedSecret(ns, KeycloakAdmin, map[Username := "admin", Password := values[2]]);
    }
  }

  method EnsureKeycloakSecrets(api: Api, ns: string) returns (ok: bool)
    requires api.Valid() && api.notes.opaWrites == {}
    modifies api`fault, api`secrets, api`notes
    ensures api.Valid() && Later(old(api.notes), api.notes)
    ensures ok ==> (ns, RealmKey) in api.notes.made && (ns, KeycloakAdmin) in api.notes.made
    ensures ok ==> (ns, Oidc) in api.notes.made
    ensures ok && WholeIfThere(old(api.secrets), (ns, Oidc)) ==> ClientsThere(api.secrets, ns)
    ensures api.world.healthy ==> ok
    ensures ok ==> api.fault == old(api.fault)
  {
    ok := EnsureRealmSecrets(api, ns);
    if ok {
      ok := EnsureOidcSecret(api, ns);
    }
  }

  ghost predicate ClientsThere(secrets: Secrets, ns: string) {
    (ns, Oidc) in secrets && FieldsOf(Oidc) + ADDED <= secrets[(ns, Oidc)].Keys
  }

  lemma OidcKeysProtected(ns: string)
    ensures forall k | 0 <= k < |REALM_KEYS| :: Protected((ns, REALM_KEYS[k].0), {})
    ensures forall k | 0 <= k < |OIDC_KEYS| :: Protected((ns, OIDC_KEYS[k].0), {})
  {
  }

  lemma RealmKeysThere(secrets: Secrets, ns: string)
    requires ClientsThere(secrets, ns)
    requires (ns, RealmKey) in secrets && FieldsOf(RealmKey) <= secrets[(ns, RealmKey)].Keys
    requires (ns, KeycloakAdmin) in secrets && FieldsOf(KeycloakAdmin) <= secrets[(ns, KeycloakAdmin)].Keys
    ensures AllReadable(secrets, ns, REALM_KEYS) && AllReadable(secrets, ns, OIDC_KEYS)
  {
    forall k | 0 <= k < |OIDC_KEYS|
      ensures Readable(secrets, (ns, OIDC_KEYS[k].0, OIDC_KEYS[k].1))
    {
      assert OIDC_KEYS[k].0 == Oidc && OIDC_KEYS[k].1 in FieldsOf(Oidc) + ADDED;
    }
    forall k | 0 <= k < |REALM_KEYS|
      ensures Readable(secrets, (ns, REALM_KEYS[k].0, REALM_KEYS[k].1))
    {
      assert k == 0 || k == 5 || k == 6 || (REALM_KEYS[k].0 == Oidc && REALM_KEYS[k].1 in FieldsOf(Oidc) + ADDED);
    }
  }

  lemma RealmLawful(dp: DataPlatform, api: Api)
    requires Ruled(dp, api) && api.Valid() && AllRead(api.notes.seen, dp.spec.keycloakNs, REALM_KEYS)
    ensures var realm := dp.spec.realm(RealmIn(api.notes.seen, dp.spec.keycloakNs));
            api.start.law(api.notes.seen, api.output.(realm := Some(realm)))
  {
    var realm := dp.spec.realm(RealmIn(api.notes.seen, dp.spec.keycloakNs));
    Lawful(dp, api, api.output.(realm := Some(realm)));
  }

  /** The realm's credentials are read for its text, and then those of every client. */
  method HashRealm(dp: DataPlatform, api: Api) returns (ok: bool)
    requires InHead(dp, api) && Ruled(dp, api)
    modifies api`fault, api`notes, api`output
    ensures InHead(dp, api) && Later(old(api.notes), api.notes)
    ensures ok ==> api.output.realm.Some?
    ensures api.world.healthy && AllReadable(api.secrets, dp.spec.keycloakNs, REALM_KEYS) ==> ok
    ensures ok ==> api.fault == old(api.fault)
  {
    var values;
    OidcKeysProtected(dp.spec.keycloakNs);
    ok, values := api.GetAll(dp.spec.keycloakNs, REALM_KEYS);
    if ok {
      RealmLawful(dp, api);
      RealmRead(api.notes.seen, dp.spec.keycloakNs);
      var realm := dp.spec.realm(
        RealmCredentials(values[0], values[1], values[2], values[3], values[4], values[5], values[6]));
      api.Emit(api.output.(realm := Some(realm)));
    }
  }

  method KeycloakClients(dp: DataPlatform, api: Api) returns (ok: bool, oidc: OidcConfig)
    requires InHead(dp, api) && Ruled(dp, api) && Embedded(dp.spec)
    modifies api`fault, api`notes
    ensures InHead(dp, api) && Later(old(api.notes), api.notes)
    ensures ok ==> OidcResolved(dp.spec, api.world, api.notes.seen, oidc)
    ensures api.world.healthy && AllReadable(api.secrets, dp.spec.keycloakNs, OIDC_KEYS) ==> ok
    ensures ok ==> api.fault == old(api.fault)
  {
    oidc := NO_OIDC;
    var values;
    OidcKeysProtected(dp.spec.keycloakNs);
    ok, values := api.GetAll(dp.spec.keycloakNs, OIDC_KEYS);
    if ok {
      oidc := OidcConfig(true, true, values[2], values[3], values[5], values[6], values[7], values[8]);
      ClientRead(api.notes.seen, dp.spec.keycloakNs, values);
    }
  }

  lemma ClientRead(seen: Reads, ns: string, values: seq<string>)
    requires AllRead(seen, ns, OIDC_KEYS) && values == Values(seen, ns, OIDC_KEYS)
    ensures (ns, Oidc, TrinoClientId) in seen && seen[(ns, Oidc, TrinoClientId)] == values[2]
    ensures (ns, Oidc, TrinoClientSecret) in seen && seen[(ns, Oidc, TrinoClientSecret)] == values[3]
    ensures (ns, Oidc, OpaClientId) in seen && seen[(ns, Oidc, OpaClientId)] == values[5]
    ensures (ns, Oidc, OpaClientSecret) in seen && seen[(ns, Oidc, OpaClientSecret)] == values[6]
    ensures (ns, Oidc, SupersetClientId) in seen && seen[(ns, Oidc, SupersetClientId)] == values[7]
    ensures (ns, Oidc, SupersetClientSecret) in seen && seen[(ns, Oidc, SupersetClientSecret)] == values[8]
  {
    assert OIDC_KEYS[2] == (Oidc, TrinoClientId) && OIDC_KEYS[3] == (Oidc, TrinoClientSecret);
    assert OIDC_KEYS[5] == (Oidc, OpaClientId) && OIDC_KEYS[6] == (Oidc, OpaClientSecret);
    assert OIDC_KEYS[7] == (Oidc, SupersetClientId) && OIDC_KEYS[8] == (Oidc, SupersetClientSecret);
  }

  /** In a smooth pass all of Keycloak's credentials can be read. */
  lemma RealmReadable(dp: DataPlatform, api: Api)
    requires Ruled(dp, api) && api.Valid() && ClientsThere(api.secrets, dp.spec.keycloakNs)
    requires (dp.spec.keycloakNs, RealmKey) in api.notes.made && (dp.spec.keycloakNs, KeycloakAdmin) in api.notes.made
    ensures var ns := dp.spec.keycloakNs;
            api.start.smooth ==> AllReadable(api.secrets, ns, REALM_KEYS) && AllReadable(api.secrets, ns, OIDC_KEYS)
  {
    var ns := dp.spec.keycloakNs;
    SmoothWhole(dp, api, (ns, RealmKey));
    SmoothWhole(dp, api, (ns, KeycloakAdmin));
    MadeThere(api, (ns, RealmKey));
    MadeThere(api, (ns, KeycloakAdmin));
    if api.start.smooth {
      RealmKeysThere(api.secrets, ns);
    }
  }

  lemma OidcWhole(dp: DataPlatform, api: Api)
    requires Ruled(dp, api) && api.Valid() && Embedded(dp.spec) && api.notes.opaWrites == {}
    ensures api.start.smooth ==> WholeIfThere(api.secrets, (dp.spec.keycloakNs, Oidc))
  {
    var t, key := api.Now(), (dp.spec.keycloakNs, Oidc);
    assert Agreed(RulesOf(dp, api)) && Legal(t);
    if api.start.smooth && key in t.secrets {
      StaysWhole(t.start.secrets, t.secrets, {}, t.notes.seen, key);
    }
  }

  ghost predicate RealmMade(spec: Spec, made: set<Key>) {
    && (spec.keycloakNs, RealmKey) in made && (spec.keycloakNs, KeycloakAdmin) in made
    && (spec.keycloakNs, Oidc) in made
  }

  method EnsureRealm(dp: DataPlatform, api: Api) returns (ok: bool)
    requires InHead(dp, api) && Ruled(dp, api) && Embedded(dp.spec)
    modifies api`fault, api`secrets, api`notes, api`output
    ensures InHead(dp, api) && Later(old(api.notes), api.notes)
    ensures ok ==> RealmMade(dp.spec, api.notes.made) && api.output.realm.Some?
    ensures api.start.smooth ==> ok && AllReadable(api.secrets, dp.spec.keycloakNs, OIDC_KEYS)
    ensures ok ==> api.fault == old(api.fault)
  {
    PaceOf(dp, api, Auth);
    OidcWhole(dp, api);
    ok := EnsureKeycloakSecrets(api, dp.spec.keycloakNs);
    if ok {
      if api.start.smooth {
        RealmReadable(dp, api);
      }
      ok := HashRealm(dp, api);
    }
  }

  method ReconcileKeycloak(dp: DataPlatform, api: Api) returns (o: Outcome, oidc: OidcConfig)
    requires InHead(dp, api) && Ruled(dp, api) && Embedded(dp.spec)
    modifies api`fault, api`secrets, api`notes, api`output
    ensures InHead(dp, api) && Later(old(api.notes), api.notes)
    ensures oidc.embedded ==> OidcResolved(dp.spec, api.world, api.notes.seen, oidc)
    ensures !o.Failed? ==>
              oidc.embedded && o == OutcomeOf(AnswerOf(api.world.workloads, dp.spec.keycloakNs, KeycloakDeployment))
    ensures !o.Failed? ==> RealmMade(dp.spec, api.notes.made) && api.output.realm.Some?
    ensures api.start.smooth ==> o == OutcomeOf(AnswerOf(api.world.workloads, dp.spec.keycloakNs, KeycloakDeployment))
    ensures !o.Failed? ==> api.fault == old(api.fault)
  {
    PaceOf(dp, api, Auth);
    oidc, o := NO_OIDC, Failed;
    var ok := api.Request();
    if ok {
      ok := EnsureRealm(dp, api);
    }
    if ok {
      ok := api.Request(); // realm, service and deployment
    }
    if ok {
      ok, oidc := KeycloakClients(dp, api);
      o := Finish(api, ok, dp.spec.keycloakNs, KeycloakDeployment);
      oidc := if ok then oidc else NO_OIDC;
    }
  }

  ghost predicate AuthEnd(spec: Spec, world: World, smooth: bool, done: Facts,
                          seen: Reads, o: Outcome, oidc: OidcConfig) {
    && (!o.Failed? ==> OidcResolved(spec, world, seen, oidc))
    && (oidc.embedded ==> Embedded(spec))
    && if Embedded(spec) then
         && (o == OutcomeOf(AnswerOf(world.workloads, spec.keycloakNs, KeycloakDeployment)) || (!smooth && o.Failed?))
         && (!o.Failed? ==> RealmMade(spec, done.made) && done.realm)
       else !o.Waiting? && (world.healthy ==> o.Up?)
  }

  method AuthOutcome(dp: DataPlatform, api: Api) returns (o: Outcome, oidc: OidcConfig)
    requires InHead(dp, api) && Ruled(dp, api) && dp.spec.lakekeeper
    modifies api`fault, api`secrets, api`notes, api`output
    ensures InHead(dp, api) && Later(old(api.notes), api.notes)
    ensures AuthEnd(dp.spec, api.world, api.start.smooth, Done(api), api.notes.seen, o, oidc)
    ensures !o.Failed? ==> api.fault == old(api.fault)
  {
    oidc := NO_OIDC;
    if !dp.spec.auth {
      o := Up;
    } else if dp.spec.authEmbedded {
      o, oidc := ReconcileKeycloak(dp, api);
    } else {
      var configured := api.Request();
      o := if configured then Up else Failed;
      oidc := if configured then ExternalOidc(api.world.external) else NO_OIDC;
    }
  }

  lemma AuthFits(spec: Spec, world: World, smooth: bool, calm: bool, done: Facts,
                 seen: Reads, o: Outcome, oidc: OidcConfig)
    requires AuthEnd(spec, world, smooth, done, seen, o, oidc) && spec.lakekeeper
    requires Paced(spec, world, smooth, calm, Auth)
    ensures Fits(spec, world.workloads, calm, Auth, o, done) && (smooth ==> !o.Failed?)
    ensures o.Waiting? ==>
              spec.auth && spec.authEmbedded && Starting(world.workloads, spec.keycloakNs, KeycloakDeployment)
  {
  }

  lemma AuthSettles(dp: DataPlatform, api: Api, o: Outcome, oidc: OidcConfig)
    requires Ruled(dp, api)
    requires dp.spec.lakekeeper
    requires AuthEnd(dp.spec, api.world, api.start.smooth, Done(api), api.notes.seen, o, oidc)
    ensures Fits(dp.spec, api.world.workloads, dp.pass.calm, Auth, o, Done(api)) && (api.start.smooth ==> !o.Failed?)
    ensures !o.Failed? ==> OidcResolved(dp.spec, api.world, api.notes.seen, oidc)
    ensures oidc.embedded ==> dp.spec.auth && dp.spec.authEmbedded
    ensures o.Waiting? ==>
              && dp.spec.auth && dp.spec.authEmbedded
              && Starting(api.world.workloads, dp.spec.keycloakNs, KeycloakDeployment)
  {
    PaceOf(dp, api, Auth);
    AuthFits(dp.spec, api.world, api.start.smooth, dp.pass.calm, Done(api), api.notes.seen, o, oidc);
  }

  method ReconcileAuth(dp: DataPlatform, api: Api) returns (o: Outcome, oidc: OidcConfig)
    requires InHead(dp, api) && Ruled(dp, api) && dp.spec.lakekeeper
    modifies dp`conditions, dp`reached, api`fault, api`mark, api`secrets, api`notes, api`output
    ensures InHead(dp, api) && dp.reached.outs == old(dp.reached.outs)[Auth := o] && Later(old(api.notes), api.notes)
    ensures !o.Failed? ==> OidcResolved(dp.spec, api.world, api.notes.seen, oidc)
    ensures oidc.embedded ==> dp.spec.auth && dp.spec.authEmbedded
    ensures o.Waiting? ==>
              && dp.spec.auth && dp.spec.authEmbedded
              && Starting(api.world.workloads, dp.spec.keycloakNs, KeycloakDeployment)
    ensures api.start.smooth ==> !o.Failed?
    ensures !o.Failed? ==> api.fault == old(api.fault)
  {
    o, oidc := AuthOutcome(dp, api);
    AuthSettles(dp, api, o, oidc);
    Settle(dp, api, Auth, o);
  }

  /** `externalOIDC`: OPA shares Trino's client. */
  function ExternalOidc(external: External): OidcConfig {
    var id, secret := external.clientId, external.clientSecret;
    OidcConfig(true, false, id, secret, id, secret, external.supersetId, external.supersetSecret)
  }
}

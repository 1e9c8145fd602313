/** Restart stability over whole runs: what the config hashes are computed from, and what it
    says about the credentials in the Secrets. */
module Restarts {
  import opened Wrappers
  import opened Cluster
  import opened Platform
  import opened Runs
  import ConfigHash
  import Properties

  /** Two passes of one run, under one spec and with the external credentials unchanged. */
  ghost predicate Restart(h: seq<Pass>, opaNamespaces: set<string>, i: nat, j: nat) {
    && IsHistory(h) && i <= j < |h| && WritesWithin(h, opaNamespaces)
    && h[i].spec == h[j].spec && h[i].world.external == h[j].world.external
    && (Embedded(h[i].spec) ==> h[i].spec.keycloakNs !in opaNamespaces)
  }

  lemma {:induction false} SameClients(h: seq<Pass>, opaNamespaces: set<string>, i: nat, j: nat)
    requires Restart(h, opaNamespaces, i, j) && Embedded(h[i].spec)
    requires ClientSeen(h[i].spec, h[i].seen) && ClientSeen(h[j].spec, h[j].seen)
    ensures forall f | f in {TrinoClientId, TrinoClientSecret} ::
              h[i].seen[(h[i].spec.keycloakNs, Oidc, f)] == h[j].seen[(h[i].spec.keycloakNs, Oidc, f)]
  {
    SameCredentialLater(h, opaNamespaces, i, j, (h[i].spec.keycloakNs, Oidc, TrinoClientId));
    SameCredentialLater(h, opaNamespaces, i, j, (h[i].spec.keycloakNs, Oidc, TrinoClientSecret));
  }

  lemma {:induction false} SameKeys(h: seq<Pass>, opaNamespaces: set<string>, i: nat, j: nat)
    requires Restart(h, opaNamespaces, i, j) && h[i].spec.lakekeeper && h[i].spec.storageEmbedded
    requires KeysSeen(h[i].spec, h[i].seen) && KeysSeen(h[j].spec, h[j].seen)
    ensures forall f | f in {AccessKey, SecretKey} ::
              h[i].seen[(h[i].spec.minioNs, MinioKeys, f)] == h[j].seen[(h[i].spec.minioNs, MinioKeys, f)]
  {
    SameCredentialLater(h, opaNamespaces, i, j, (h[i].spec.minioNs, MinioKeys, AccessKey));
    SameCredentialLater(h, opaNamespaces, i, j, (h[i].spec.minioNs, MinioKeys, SecretKey));
  }

  lemma {:induction false} SameCredentials(h: seq<Pass>, opaNamespaces: set<string>, i: nat, j: nat)
    requires Restart(h, opaNamespaces, i, j)
    requires TrinoRead(h[i].spec, h[i].seen) && TrinoRead(h[j].spec, h[j].seen)
    ensures CredentialsOf(h[i].spec, h[i].world, h[i].seen) == CredentialsOf(h[j].spec, h[j].world, h[j].seen)
  {
    var spec := h[i].spec;
    if Embedded(spec) {
      SameClients(h, opaNamespaces, i, j);
    }
    if spec.lakekeeper && spec.storageEmbedded {
      SameKeys(h, opaNamespaces, i, j);
    }
    if OAuthOn(spec) {
      SameCredentialLater(h, opaNamespaces, i, j, (spec.trinoNs, TrinoInternal, SharedSecret));
    }
  }

  ghost function SettingIn(p: Pass): ConfigHash.Setting {
    SettingOf(p.spec, p.world, p.seen)
  }

  /** OpenFGA's database was ready in both passes or in neither, or does not matter. */
  ghost predicate SameDatabase(p: Pass, q: Pass) {
    p.spec.lakekeeper && p.spec.auth && p.spec.authz ==>
      (AnswerOf(p.world.workloads, p.spec.openfgaNs, PostgresSet) == Yes
       <==> AnswerOf(q.world.workloads, p.spec.openfgaNs, PostgresSet) == Yes)
  }

  /** Restart stability of Trino, exactly: with the spec and the external credentials
      unchanged, any two passes that render Trino's configuration hash the same input in every
      iteration order if and only if at most one extra catalog is configured besides the
      reserved name and OpenFGA's database, on which the OPA address depends, was ready in
      both or in neither. */
  lemma {:induction false} TrinoStableExact(digest: ConfigHash.Digest, h: seq<Pass>, opaNamespaces: set<string>,
                                            i: nat, j: nat)
    requires Restart(h, opaNamespaces, i, j) && h[i].output.trino.Some? && h[j].output.trino.Some?
    requires ConfigHash.Tells(digest, SettingIn(h[i]))
    ensures ConfigHash.OneInput(digest, SettingIn(h[i]), SettingIn(h[j]))
            <==> Properties.AtMostOneCatalog(h[i].spec.trinoSpec.extraCatalogs) && SameDatabase(h[i], h[j])
  {
    CredentialsRead(h, i);
    CredentialsRead(h, j);
    SameCredentials(h, opaNamespaces, i, j);
    var opa := OpaPointed(h[j].spec, h[j].world.workloads);
    ConfigHash.TrinoInputExact(digest, SettingIn(h[i]), opa);
    assert SettingIn(h[j]) == SettingIn(h[i]).(opa := opa);
  }

  lemma {:induction false} CredentialsRead(h: seq<Pass>, i: nat)
    requires IsHistory(h) && i < |h| && h[i].output.trino.Some?
    ensures TrinoRead(h[i].spec, h[i].seen)
  {
    HistoryAt(h, i);
  }

  /** What a pass hashed and stored is one of the configurations it can have. */
  lemma {:induction false} OutputIsText(h: seq<Pass>, i: nat) returns (order: seq<string>)
    requires IsHistory(h) && i < |h| && h[i].output.trino.Some?
    ensures Properties.Enumerates(order, h[i].spec.trinoSpec.extraCatalogs)
    ensures h[i].output.trino.value == TrinoOutputOf(SettingIn(h[i]), order)
  {
    HistoryAt(h, i);
    order :| && Properties.Enumerates(order, h[i].spec.trinoSpec.extraCatalogs)
             && h[i].output.trino.value == TrinoOutputOf(SettingIn(h[i]), order);
  }

  /** So a stable Trino is not restarted: the two hashes were computed from one input. */
  lemma {:induction false} TrinoNotRestarted(digest: ConfigHash.Digest, h: seq<Pass>, i: nat, j: nat)
    requires IsHistory(h) && i < |h| && j < |h| && h[i].output.trino.Some? && h[j].output.trino.Some?
    requires ConfigHash.OneInput(digest, SettingIn(h[i]), SettingIn(h[j]))
    ensures ConfigHash.TrinoInput(digest, h[i].output.trino.value.texts)
            == ConfigHash.TrinoInput(digest, h[j].output.trino.value.texts)
  {
    var a := OutputIsText(h, i);
    var b := OutputIsText(h, j);
  }

  /** Restart stability of Keycloak and Superset: with the spec unchanged, any two passes
      that render the realm, or Superset's configuration, hash the same text. */
  lemma {:induction false} KeycloakSupersetStable(h: seq<Pass>, opaNamespaces: set<string>, i: nat, j: nat)
    requires IsHistory(h) && i <= j < |h| && WritesWithin(h, opaNamespaces) && h[i].spec == h[j].spec
    ensures h[i].output.superset.Some? && h[j].output.superset.Some? ==> h[i].output.superset == h[j].output.superset
    ensures h[i].output.realm.Some? && h[j].output.realm.Some? && h[i].spec.keycloakNs !in opaNamespaces ==>
              h[i].output.realm == h[j].output.realm
  {
    RealmTexts(h, i);
    RealmTexts(h, j);
    if h[i].output.superset.Some? && h[j].output.superset.Some? {
      SameCredentialLater(h, opaNamespaces, i, j, (h[i].spec.supersetNs, PostgresLogin, Password));
    }
    if h[i].output.realm.Some? && h[j].output.realm.Some? && h[i].spec.keycloakNs !in opaNamespaces {
      SameRealm(h, opaNamespaces, i, j, h[i].spec.keycloakNs);
    }
  }

  /** What the realm's and Superset's texts are made of. */
  lemma {:induction false} RealmTexts(h: seq<Pass>, i: nat)
    requires IsHistory(h) && i < |h|
    ensures var p, ns := h[i], h[i].spec.keycloakNs;
            p.output.realm.Some? ==>
              AllRead(p.seen, ns, REALM_KEYS) && p.output.realm.value == p.spec.realm(RealmIn(p.seen, ns))
    ensures var p := h[i];
            p.output.superset.Some? ==>
              && (p.spec.supersetNs, PostgresLogin, Password) in p.seen
              && p.output.superset.value
                 == SupersetTexts(p.spec.supersetConfig(SupersetIn(p.spec, p.seen)), p.spec.supersetBootstrap)
  {
    HistoryAt(h, i);
  }

  lemma {:induction false} SameRealm(h: seq<Pass>, opaNamespaces: set<string>, i: nat, j: nat, ns: string)
    requires IsHistory(h) && i <= j < |h| && WritesWithin(h, opaNamespaces) && ns !in opaNamespaces
    requires AllRead(h[i].seen, ns, REALM_KEYS) && AllRead(h[j].seen, ns, REALM_KEYS)
    ensures RealmIn(h[i].seen, ns) == RealmIn(h[j].seen, ns)
  {
    RealmRead(h[i].seen, ns);
    RealmRead(h[j].seen, ns);
    forall k | 0 <= k < |REALM_KEYS|
      ensures Values(h[i].seen, ns, REALM_KEYS)[k] == Values(h[j].seen, ns, REALM_KEYS)[k]
    {
      assert Protected((ns, REALM_KEYS[k].0), opaNamespaces);
      SameCredentialLater(h, opaNamespaces, i, j, (ns, REALM_KEYS[k].0, REALM_KEYS[k].1));
    }
  }

  // --- What the texts say about the Secrets ---

  /** What a pass has read from a protected Secret is what the Secret holds after it. */
  lemma {:induction false} SeenIsHeld(h: seq<Pass>, k: nat, c: Credential)
    requires IsHistory(h) && k < |h| && c in h[k].seen && Protected((c.0, c.1), h[k].opaWrites)
    ensures Readable(h[k].secrets', c) && h[k].secrets'[(c.0, c.1)][c.2] == h[k].seen[c]
  {
    HistoryAt(h, k);
  }

  /** Under that key the text that was read shows what the Secret holds. */
  ghost predicate ShowsSecret(read: map<string, string>, extra: map<string, string>, key: string,
                              secrets: Secrets, c: Credential) {
    Readable(secrets, c) && ConfigHash.Shows(read, extra, key, secrets[(c.0, c.1)][c.2], true)
  }

  /** The spec's own properties hold no credential, and all texts can be read back. */
  ghost predicate Legible(p: Pass) {
    var s := SettingIn(p);
    && ConfigHash.NoCredentials(s.spec)
    && Properties.Printable(ConfigHash.CoordinatorProps(s.spec, s.uses, s.credentials))
    && Properties.Printable(ConfigHash.WorkerProps(s.spec, s.credentials))
    && Properties.Printable(ConfigHash.CatalogProps(s.spec, s.uses, s.credentials))
  }

  predicate WantsOAuth(spec: Spec) {
    spec.lakekeeper && spec.auth && (spec.trinoPublicUrl || spec.superset)
  }

  /** The client of the coordinator's text. */
  ghost predicate ClientShown(p: Pass, read: map<string, string>) {
    var extra, kc := p.spec.trinoSpec.extraConfig, p.spec.keycloakNs;
    var id, secret := "http-server.authentication.oauth2.client-id", "http-server.authentication.oauth2.client-secret";
    if !WantsOAuth(p.spec) then
      ConfigHash.Shows(read, extra, id, "", false) && ConfigHash.Shows(read, extra, secret, "", false)
    else if p.spec.authEmbedded then
      kc !in p.opaWrites ==>
        && ShowsSecret(read, extra, id, p.secrets', (kc, Oidc, TrinoClientId))
        && ShowsSecret(read, extra, secret, p.secrets', (kc, Oidc, TrinoClientSecret))
    else
      && ConfigHash.Shows(read, extra, id, p.world.external.clientId, true)
      && ConfigHash.Shows(read, extra, secret, p.world.external.clientSecret, true)
  }

  /** The secret Trino's nodes share. */
  ghost predicate SharedShown(p: Pass, read: map<string, string>) {
    var extra, shared := p.spec.trinoSpec.extraConfig, "internal-communication.shared-secret";
    var c := (p.spec.trinoNs, TrinoInternal, SharedSecret);
    if !WantsOAuth(p.spec) then ConfigHash.Shows(read, extra, shared, "", false)
    else
      && Readable(p.secrets', c)
      && var value := p.secrets'[(c.0, c.1)][c.2];
         ConfigHash.Shows(read, extra, shared, value, value != "")
  }

  /** Trino's coordinator and workers are configured with the credentials the Secrets hold, as
      the spec wants it: a client only with OAuth2 and on the coordinator only, that of
      Keycloak's Secret or the external one, and the shared secret on both. */
  lemma {:induction false} TrinoTextShows(h: seq<Pass>, k: nat)
    requires IsHistory(h) && k < |h| && h[k].output.trino.Some? && Legible(h[k])
    ensures var texts := h[k].output.trino.value.texts;
            && ClientShown(h[k], Properties.Read(texts.coordinator))
            && SharedShown(h[k], Properties.Read(texts.coordinator))
            && SharedShown(h[k], Properties.Read(texts.worker))
            && forall key | key in {"http-server.authentication.oauth2.client-id",
                                    "http-server.authentication.oauth2.client-secret"} ::
                 ConfigHash.Shows(Properties.Read(texts.worker), h[k].spec.trinoSpec.extraConfig, key, "", false)
  {
    var s := SettingIn(h[k]);
    var order := OutputIsText(h, k);
    CredentialsRead(h, k);
    ConfigHash.CoordinatorShows(s.spec, s.uses, s.credentials);
    ConfigHash.WorkerShows(s.spec, s.credentials);
    ClientHeld(h, k);
    if OAuthOn(h[k].spec) {
      SeenIsHeld(h, k, (h[k].spec.trinoNs, TrinoInternal, SharedSecret));
    }
  }

  /** The client and the keys a pass has read are those the Secrets hold. */
  lemma {:induction false} ClientHeld(h: seq<Pass>, k: nat)
    requires IsHistory(h) && k < |h| && TrinoRead(h[k].spec, h[k].seen)
    ensures var p, kc := h[k], h[k].spec.keycloakNs;
            Embedded(p.spec) && kc !in p.opaWrites ==>
              forall f | f in {TrinoClientId, TrinoClientSecret} ::
                Readable(p.secrets', (kc, Oidc, f)) && p.secrets'[(kc, Oidc)][f] == p.seen[(kc, Oidc, f)]
    ensures var p, ns := h[k], h[k].spec.minioNs;
            p.spec.lakekeeper && p.spec.storageEmbedded ==>
              forall f | f in {AccessKey, SecretKey} ::
                Readable(p.secrets', (ns, MinioKeys, f)) && p.secrets'[(ns, MinioKeys)][f] == p.seen[(ns, MinioKeys, f)]
  {
    var p, kc, ns := h[k], h[k].spec.keycloakNs, h[k].spec.minioNs;
    if Embedded(p.spec) && kc !in p.opaWrites {
      SeenIsHeld(h, k, (kc, Oidc, TrinoClientId));
      SeenIsHeld(h, k, (kc, Oidc, TrinoClientSecret));
    }
    if p.spec.lakekeeper && p.spec.storageEmbedded {
      SeenIsHeld(h, k, (ns, MinioKeys, AccessKey));
      SeenIsHeld(h, k, (ns, MinioKeys, SecretKey));
    }
  }

  /** The client LakeKeeper's catalog file shows, with a colon in the middle. */
  ghost predicate CatalogClientShown(p: Pass, read: map<string, string>) {
    var kc, key := p.spec.keycloakNs, "iceberg.rest-catalog.oauth2.credential";
    if !p.spec.auth then ConfigHash.Shows(read, map[], key, "", false)
    else if p.spec.authEmbedded then
      kc !in p.opaWrites ==>
        && Readable(p.secrets', (kc, Oidc, TrinoClientId)) && Readable(p.secrets', (kc, Oidc, TrinoClientSecret))
        && var data := p.secrets'[(kc, Oidc)];
           ConfigHash.Shows(read, map[], key, data[TrinoClientId] + ":" + data[TrinoClientSecret], true)
    else
      var external := p.world.external;
      ConfigHash.Shows(read, map[], key, external.clientId + ":" + external.clientSecret, true)
  }

  /** The keys of the object store: MinIO's, or static ones of an external store. */
  ghost predicate CatalogKeysShown(p: Pass, read: map<string, string>) {
    var ns, access, secret := p.spec.minioNs, "s3.aws-access-key", "s3.aws-secret-key";
    if p.spec.storageEmbedded then
      && ShowsSecret(read, map[], access, p.secrets', (ns, MinioKeys, AccessKey))
      && ShowsSecret(read, map[], secret, p.secrets', (ns, MinioKeys, SecretKey))
    else
      && ConfigHash.Shows(read, map[], access, p.world.external.accessKey, !p.spec.sts)
      && ConfigHash.Shows(read, map[], secret, p.world.external.secretKey, !p.spec.sts)
  }

  /** With LakeKeeper on, its catalog file is there, and shows the client and the keys that the
      Secrets hold, as the spec wants it. */
  lemma {:induction false} CatalogFileShows(h: seq<Pass>, k: nat)
    requires IsHistory(h) && k < |h| && h[k].output.trino.Some? && Legible(h[k]) && h[k].spec.lakekeeper
    ensures OtherField("lakekeeper.properties") in h[k].output.trino.value.files
    ensures var read := Properties.Read(h[k].output.trino.value.files[OtherField("lakekeeper.properties")]);
            CatalogClientShown(h[k], read) && CatalogKeysShown(h[k], read)
  {
    var s := SettingIn(h[k]);
    var order := OutputIsText(h, k);
    CredentialsRead(h, k);
    CatalogFile(s);
    ConfigHash.CatalogShows(s.spec, s.uses, s.credentials);
    ClientHeld(h, k);
  }

  lemma CatalogFile(s: ConfigHash.Setting)
    requires s.uses.lakekeeper
    ensures var files := FileData(ConfigHash.TrinoFiles(s));
            && OtherField("lakekeeper.properties") in files
            && files[OtherField("lakekeeper.properties")]
               == Properties.Text(ConfigHash.CatalogProps(s.spec, s.uses, s.credentials))
  {
    ConfigHash.TrinoFilesNamed(s);
  }

  /** Trino asks OPA exactly when the spec wants an identity provider and authorization, and
      OpenFGA's database is ready. */
  lemma {:induction false} AccessControlShown(h: seq<Pass>, k: nat)
    requires IsHistory(h) && k < |h| && h[k].output.trino.Some?
    ensures var p := h[k];
            p.output.trino.value.texts.accessControl != ""
            <==> && p.spec.lakekeeper && p.spec.auth && p.spec.authz
                 && AnswerOf(p.world.workloads, p.spec.openfgaNs, PostgresSet) == Yes
  {
    var order := OutputIsText(h, k);
    ConfigHash.AccessControlShows(h[k].spec.trinoSpec);
  }

  /** What a Secret holds under a key, if anything. */
  function Held(secrets: Secrets, c: Credential): string {
    if Readable(secrets, c) then secrets[(c.0, c.1)][c.2] else ""
  }

  /** The realm that was hashed holds Keycloak's credentials: every one in its place. */
  lemma {:induction false} RealmShows(h: seq<Pass>, k: nat)
    requires IsHistory(h) && k < |h| && h[k].output.realm.Some? && h[k].spec.keycloakNs !in h[k].opaWrites
    ensures var secrets, ns := h[k].secrets', h[k].spec.keycloakNs;
            h[k].output.realm.value
            == h[k].spec.realm(RealmCredentials(
                 Held(secrets, (ns, KeycloakAdmin, Password)), Held(secrets, (ns, Oidc, TrinoClientSecret)),
                 Held(secrets, (ns, Oidc, OperatorClientSecret)), Held(secrets, (ns, Oidc, OpaClientSecret)),
                 Held(secrets, (ns, Oidc, SupersetClientSecret)), Held(secrets, (ns, RealmKey, PrivateKey)),
                 Held(secrets, (ns, RealmKey, Certificate))))
    ensures AllReadable(h[k].secrets', h[k].spec.keycloakNs, REALM_KEYS)
  {
    var p, ns := h[k], h[k].spec.keycloakNs;
    RealmTexts(h, k);
    RealmRead(p.seen, ns);
    RealmKeysHeld(h, k);
    RealmHeld(p.secrets', ns, Values(p.seen, ns, REALM_KEYS));
  }

  lemma {:induction false} RealmKeysHeld(h: seq<Pass>, k: nat)
    requires IsHistory(h) && k < |h| && h[k].spec.keycloakNs !in h[k].opaWrites
    requires AllRead(h[k].seen, h[k].spec.keycloakNs, REALM_KEYS)
    ensures AllReadable(h[k].secrets', h[k].spec.keycloakNs, REALM_KEYS)
    ensures var ns := h[k].spec.keycloakNs;
            forall i | 0 <= i < |REALM_KEYS| ::
              Held(h[k].secrets', (ns, REALM_KEYS[i].0, REALM_KEYS[i].1)) == Values(h[k].seen, ns, REALM_KEYS)[i]
  {
    var ns := h[k].spec.keycloakNs;
    forall i | 0 <= i < |REALM_KEYS|
      ensures Readable(h[k].secrets', (ns, REALM_KEYS[i].0, REALM_KEYS[i].1))
      ensures Held(h[k].secrets', (ns, REALM_KEYS[i].0, REALM_KEYS[i].1)) == Values(h[k].seen, ns, REALM_KEYS)[i]
    {
      assert Protected((ns, REALM_KEYS[i].0), h[k].opaWrites);
      SeenIsHeld(h, k, (ns, REALM_KEYS[i].0, REALM_KEYS[i].1));
    }
  }

  lemma RealmHeld(secrets: Secrets, ns: string, values: seq<string>)
    requires |values| == |REALM_KEYS| == 7
    requires forall i | 0 <= i < 7 :: Held(secrets, (ns, REALM_KEYS[i].0, REALM_KEYS[i].1)) == values[i]
    ensures Held(secrets, (ns, KeycloakAdmin, Password)) == values[0]
    ensures Held(secrets, (ns, Oidc, TrinoClientSecret)) == values[1]
    ensures Held(secrets, (ns, Oidc, OperatorClientSecret)) == values[2]
    ensures Held(secrets, (ns, Oidc, OpaClientSecret)) == values[3]
    ensures Held(secrets, (ns, Oidc, SupersetClientSecret)) == values[4]
    ensures Held(secrets, (ns, RealmKey, PrivateKey)) == values[5]
    ensures Held(secrets, (ns, RealmKey, Certificate)) == values[6]
  {
    assert REALM_KEYS[0] == (KeycloakAdmin, Password) && REALM_KEYS[1] == (Oidc, TrinoClientSecret);
    assert REALM_KEYS[2] == (Oidc, OperatorClientSecret) && REALM_KEYS[3] == (Oidc, OpaClientSecret);
    assert REALM_KEYS[4] == (Oidc, SupersetClientSecret) && REALM_KEYS[5] == (RealmKey, PrivateKey);
    assert REALM_KEYS[6] == (RealmKey, Certificate);
  }
}

/** The platform's custom resource during one reconcile pass: which conditions the pass writes, what
    each of them rests on, and what a pass may put out. */
module Platform {
  import opened Wrappers
  import opened Cluster
  import ConfigHash
  import Properties

  datatype Cond =
    | Postgres | Minio | Auth | OpenFGA | Lakekeeper | WarehouseReady | Trino | Superset | SampleData
    | Ready

  datatype Condition = Condition(status: bool, generation: int)

  type Conditions = map<Cond, Condition>

  /** How a stage ended: with an error, not ready yet, or ready (or disabled). */
  datatype Outcome = Failed | Waiting | Up

  type Outcomes = map<Cond, Outcome>

  datatype Spec = Spec(
    lakekeeper: bool, trino: bool, superset: bool, sampleData: bool,
    auth: bool, authEmbedded: bool, authz: bool, authzEmbedded: bool,
    storageEmbedded: bool, postgresEmbedded: bool, accessPolicies: bool, trinoPublicUrl: bool,
    lakekeeperNs: string, minioNs: string, keycloakNs: string, openfgaNs: string, trinoNs: string, supersetNs: string,
    sts: bool, seedHash: string, database: string,
    trinoSpec: ConfigHash.TrinoSpec,
    // the realm and Superset's two texts, given the credentials in them
    realm: RealmCredentials -> string, supersetConfig: string -> string, supersetBootstrap: string)

  /** The credentials in the realm's text. */
  datatype RealmCredentials = RealmCredentials(
    adminPassword: string, trinoSecret: string, operatorSecret: string, opaSecret: string, supersetSecret: string,
    signingKey: string, certificate: string)

  datatype OidcConfig = OidcConfig(
    enabled: bool, embedded: bool, clientId: string, clientSecret: string, opaClientId: string, opaSecret: string,
    supersetId: string, supersetSecret: string)

  datatype FgaConfig = FgaConfig(enabled: bool, opaUrl: bool, storeId: string)

  datatype ObjectStore = ObjectStore(accessKey: string, secretKey: string)

  const NO_OIDC := OidcConfig(false, false, "", "", "", "", "", "")
  const NO_FGA := FgaConfig(false, false, "")
  const NO_STORE := ObjectStore("", "")

  /** The conditions of the stages a pass reached, all for the current generation. */
  ghost function Written(outs: Outcomes, generation: int): Conditions {
    map c | c in outs :: Condition(outs[c].Up?, generation)
  }

  ghost predicate IsUp(outs: Outcomes, c: Cond) {
    c in outs && outs[c].Up?
  }

  ghost predicate GatesUp(outs: Outcomes) {
    IsUp(outs, Postgres) && IsUp(outs, Minio) && IsUp(outs, Auth) && IsUp(outs, OpenFGA) && IsUp(outs, Lakekeeper)
  }

  ghost predicate Reached(outs: Outcomes, c: Cond) {
    c in outs && !outs[c].Failed?
  }

  ghost predicate FoundationsReached(outs: Outcomes) {
    Reached(outs, Postgres) && Reached(outs, Minio) && Reached(outs, Auth) && Reached(outs, OpenFGA)
  }

  ghost predicate Serving(workloads: Workloads, ns: string, name: Workload) {
    AnswerOf(workloads, ns, name).Yes?
  }

  ghost predicate Starting(workloads: Workloads, ns: string, name: Workload) {
    AnswerOf(workloads, ns, name).No?
  }

  /** The workloads that have to be ready before a condition may be True. */
  ghost predicate ServingFor(spec: Spec, w: Workloads, c: Cond) {
    match c
    case Postgres => spec.lakekeeper && spec.postgresEmbedded ==> Serving(w, spec.lakekeeperNs, PostgresSet)
    case Minio => spec.lakekeeper && spec.storageEmbedded ==> Serving(w, spec.minioNs, MinioSet)
    case Auth => spec.lakekeeper && spec.auth && spec.authEmbedded ==> Serving(w, spec.keycloakNs, KeycloakDeployment)
    case OpenFGA => spec.lakekeeper && spec.authz ==>
      Serving(w, spec.openfgaNs, PostgresSet) && Serving(w, spec.openfgaNs, OpenFGADeployment)
    case Lakekeeper => spec.lakekeeper ==> Serving(w, spec.lakekeeperNs, LakekeeperDeployment)
    case Trino => spec.trino ==> Serving(w, spec.trinoNs, TrinoDeployment)
    case Superset => spec.superset ==>
      && Serving(w, spec.supersetNs, PostgresSet) && Serving(w, spec.supersetNs, RedisDeployment)
      && Serving(w, spec.supersetNs, SupersetDeployment)
    case _ => true
  }

  ghost predicate Present(workloads: Workloads, ns: string, name: Workload) {
    !AnswerOf(workloads, ns, name).Error?
  }

  /** The workloads whose readiness a stage asks for. */
  ghost predicate PresentFor(spec: Spec, w: Workloads, c: Cond) {
    match c
    case Postgres => spec.lakekeeper && spec.postgresEmbedded ==> Present(w, spec.lakekeeperNs, PostgresSet)
    case Minio => spec.lakekeeper && spec.storageEmbedded ==> Present(w, spec.minioNs, MinioSet)
    case Auth => spec.lakekeeper && spec.auth && spec.authEmbedded ==> Present(w, spec.keycloakNs, KeycloakDeployment)
    case OpenFGA => spec.lakekeeper && spec.authz ==>
      Present(w, spec.openfgaNs, PostgresSet) && Present(w, spec.openfgaNs, OpenFGADeployment)
    case Lakekeeper => spec.lakekeeper ==> Present(w, spec.lakekeeperNs, LakekeeperDeployment)
    case Trino => spec.trino ==> Present(w, spec.trinoNs, TrinoDeployment)
    case Superset => spec.superset ==>
      && Present(w, spec.supersetNs, PostgresSet) && Present(w, spec.supersetNs, RedisDeployment)
      && Present(w, spec.supersetNs, SupersetDeployment)
    case _ => true
  }

  /** Every credential Secret that is there holds what its readers need. */
  ghost predicate WholeSecrets(spec: Spec, secrets: Secrets) {
    && (forall key | key in secrets && Generated(key.1) :: FieldsOf(key.1) <= secrets[key].Keys)
    && (Embedded(spec) && (spec.keycloakNs, Oidc) in secrets ==>
          FieldsOf(Oidc) <= secrets[(spec.keycloakNs, Oidc)].Keys)
  }

  /** Nothing stands in the way of a pass: requests are answered, workloads are there, Secrets
      are whole, and the spec asks for nothing unsupported. */
  ghost predicate Smooth(spec: Spec, world: World, secrets: Secrets, catalogClient: bool) {
    && world.healthy && catalogClient && WholeSecrets(spec, secrets)
    && (spec.lakekeeper && spec.authz ==> spec.authzEmbedded)
    && forall c :: PresentFor(spec, world.workloads, c)
  }

  /** And nothing is left to wait for. */
  ghost predicate Calm(spec: Spec, world: World, secrets: Secrets, jobs: Jobs, catalogClient: bool) {
    && Smooth(spec, world, secrets, catalogClient)
    && (forall c :: ServingFor(spec, world.workloads, c)) && JobsAllDone(spec, jobs)
  }

  ghost predicate JobsAllDone(spec: Spec, jobs: Jobs) {
    && (spec.lakekeeper && spec.storageEmbedded ==> JobDone(jobs, spec.minioNs, BucketJob))
    && (SeedingEnabled(spec) ==> JobDone(jobs, spec.trinoNs, SampleJob))
  }

  predicate OidcOn(spec: Spec) {
    spec.lakekeeper && spec.auth
  }

  predicate Embedded(spec: Spec) {
    OidcOn(spec) && spec.authEmbedded
  }

  predicate OAuthOn(spec: Spec) {
    OidcOn(spec) && (spec.trinoPublicUrl || spec.superset)
  }

  function UsesOf(spec: Spec): ConfigHash.Uses {
    ConfigHash.Uses(spec.lakekeeper, OidcOn(spec), OAuthOn(spec), spec.storageEmbedded || !spec.sts)
  }

  /** Whether Trino is pointed at OPA: not before OpenFGA's database is ready. */
  ghost predicate OpaPointed(spec: Spec, workloads: Workloads) {
    OidcOn(spec) && spec.authz && Serving(workloads, spec.openfgaNs, PostgresSet)
  }

  /** The namespaces in which an error-free pass writes OPA's copy of the credentials. */
  function OpaTarget(spec: Spec): set<string> {
    if spec.trino && OidcOn(spec) && spec.authz then {spec.openfgaNs} else {}
  }

  const REALM_KEYS: seq<(Secret, Field)> := [
    (KeycloakAdmin, Password), (Oidc, TrinoClientSecret), (Oidc, OperatorClientSecret),
    (Oidc, OpaClientSecret), (Oidc, SupersetClientSecret),
    (RealmKey, PrivateKey), (RealmKey, Certificate)]

  /** The credentials of the realm in that namespace. */
  ghost function RealmIn(seen: Reads, ns: string): RealmCredentials {
    RealmCredentials(
      Value(seen, (ns, KeycloakAdmin, Password)), Value(seen, (ns, Oidc, TrinoClientSecret)),
      Value(seen, (ns, Oidc, OperatorClientSecret)), Value(seen, (ns, Oidc, OpaClientSecret)),
      Value(seen, (ns, Oidc, SupersetClientSecret)), Value(seen, (ns, RealmKey, PrivateKey)),
      Value(seen, (ns, RealmKey, Certificate)))
  }

  ghost function SupersetIn(spec: Spec, seen: Reads): string {
    Value(seen, (spec.supersetNs, PostgresLogin, Password))
  }

  /** The client and the keys that Trino is given: those of the embedded services, the external
      ones, or none. */
  ghost function CredentialsOf(spec: Spec, world: World, seen: Reads): ConfigHash.Credentials {
    ConfigHash.Credentials(
      ClientIn(spec, seen, TrinoClientId, world.external.clientId),
      ClientIn(spec, seen, TrinoClientSecret, world.external.clientSecret),
      KeyIn(spec, seen, AccessKey, world.external.accessKey),
      KeyIn(spec, seen, SecretKey, world.external.secretKey),
      if OAuthOn(spec) then SharedIn(spec, seen) else "")
  }

  /** The client OPA authenticates with: its own one of the embedded provider, and Trino's of
      an external one. */
  ghost function OpaClientOf(spec: Spec, world: World, seen: Reads): (string, string) {
    (ClientIn(spec, seen, OpaClientId, world.external.clientId),
     ClientIn(spec, seen, OpaClientSecret, world.external.clientSecret))
  }

  ghost function ClientIn(spec: Spec, seen: Reads, field: Field, external: string): string {
    if !OidcOn(spec) then ""
    else if spec.authEmbedded then Value(seen, (spec.keycloakNs, Oidc, field))
    else external
  }

  ghost function KeyIn(spec: Spec, seen: Reads, field: Field, external: string): string {
    if !spec.lakekeeper then ""
    else if spec.storageEmbedded then Value(seen, (spec.minioNs, MinioKeys, field))
    else external
  }

  ghost function SharedIn(spec: Spec, seen: Reads): string {
    Value(seen, (spec.trinoNs, TrinoInternal, SharedSecret))
  }

  ghost predicate ClientSeen(spec: Spec, seen: Reads) {
    Embedded(spec) ==>
      && (spec.keycloakNs, Oidc, TrinoClientId) in seen && (spec.keycloakNs, Oidc, TrinoClientSecret) in seen
      && (spec.keycloakNs, Oidc, OpaClientId) in seen && (spec.keycloakNs, Oidc, OpaClientSecret) in seen
      && (spec.keycloakNs, Oidc, SupersetClientId) in seen && (spec.keycloakNs, Oidc, SupersetClientSecret) in seen
  }

  ghost predicate KeysSeen(spec: Spec, seen: Reads) {
    spec.lakekeeper && spec.storageEmbedded ==>
      (spec.minioNs, MinioKeys, AccessKey) in seen && (spec.minioNs, MinioKeys, SecretKey) in seen
  }

  ghost predicate SharedSeen(spec: Spec, seen: Reads) {
    OAuthOn(spec) ==> (spec.trinoNs, TrinoInternal, SharedSecret) in seen
  }

  /** The generated credentials Trino's texts hold. */
  ghost predicate TrinoRead(spec: Spec, seen: Reads) {
    ClientSeen(spec, seen) && KeysSeen(spec, seen) && SharedSeen(spec, seen)
  }

  ghost predicate OidcResolved(spec: Spec, world: World, seen: Reads, oidc: OidcConfig) {
    && oidc.enabled == OidcOn(spec) && oidc.embedded == Embedded(spec) && ClientSeen(spec, seen)
    && oidc.clientId == CredentialsOf(spec, world, seen).clientId
    && oidc.clientSecret == CredentialsOf(spec, world, seen).clientSecret
    && (oidc.opaClientId, oidc.opaSecret) == OpaClientOf(spec, world, seen)
    && oidc.supersetId == ClientIn(spec, seen, SupersetClientId, world.external.supersetId)
    && oidc.supersetSecret == ClientIn(spec, seen, SupersetClientSecret, world.external.supersetSecret)
  }

  ghost predicate StoreResolved(spec: Spec, world: World, seen: Reads, store: ObjectStore) {
    && KeysSeen(spec, seen)
    && store.accessKey == CredentialsOf(spec, world, seen).accessKey
    && store.secretKey == CredentialsOf(spec, world, seen).secretKey
  }

  ghost function SettingOf(spec: Spec, world: World, seen: Reads): ConfigHash.Setting {
    ConfigHash.Setting(
      spec.trinoSpec, UsesOf(spec), CredentialsOf(spec, world, seen), OpaPointed(spec, world.workloads))
  }

  /** Trino's configuration for one order in which Go iterated over the extra catalogs. */
  ghost function TrinoOutputOf(s: ConfigHash.Setting, order: seq<string>): TrinoOutput {
    TrinoOutput(ConfigHash.TrinoTextsOf(s, order), FileData(ConfigHash.TrinoFiles(s)))
  }

  /** What a pass puts out is a function of the spec, the credentials it read, whether Trino is
      pointed at OPA, and the order of the extra catalogs. */
  ghost predicate OutputLegal(spec: Spec, world: World, seen: Reads, output: Output) {
    && (output.realm.Some? ==>
          && AllRead(seen, spec.keycloakNs, REALM_KEYS)
          && output.realm.value == spec.realm(RealmIn(seen, spec.keycloakNs)))
    && (output.superset.Some? ==>
          && (spec.supersetNs, PostgresLogin, Password) in seen
          && output.superset.value
             == SupersetTexts(spec.supersetConfig(SupersetIn(spec, seen)), spec.supersetBootstrap))
    && (output.trino.Some? ==>
          && TrinoRead(spec, seen)
          && exists order ::
               && Properties.Enumerates(order, spec.trinoSpec.extraCatalogs)
               && output.trino.value == TrinoOutputOf(SettingOf(spec, world, seen), order))
    && (output.copy.Some? ==> ClientSeen(spec, seen) && output.copy.value == OpaClientOf(spec, world, seen))
  }

  lemma RealmGrows(a: Reads, b: Reads, ns: string)
    requires Grows(a, b) && AllRead(a, ns, REALM_KEYS)
    ensures AllRead(b, ns, REALM_KEYS) && RealmIn(b, ns) == RealmIn(a, ns)
  {
    RealmRead(a, ns);
  }

  /** The seven credentials, in the order they are read. */
  lemma RealmRead(seen: Reads, ns: string)
    requires AllRead(seen, ns, REALM_KEYS)
    ensures var v := Values(seen, ns, REALM_KEYS);
            RealmIn(seen, ns) == RealmCredentials(v[0], v[1], v[2], v[3], v[4], v[5], v[6])
    ensures (ns, KeycloakAdmin, Password) in seen && (ns, RealmKey, PrivateKey) in seen
    ensures (ns, RealmKey, Certificate) in seen && (ns, Oidc, TrinoClientSecret) in seen
    ensures (ns, Oidc, OperatorClientSecret) in seen && (ns, Oidc, OpaClientSecret) in seen
    ensures (ns, Oidc, SupersetClientSecret) in seen
  {
    assert REALM_KEYS[0] == (KeycloakAdmin, Password) && REALM_KEYS[1] == (Oidc, TrinoClientSecret);
    assert REALM_KEYS[2] == (Oidc, OperatorClientSecret) && REALM_KEYS[3] == (Oidc, OpaClientSecret);
    assert REALM_KEYS[4] == (Oidc, SupersetClientSecret) && REALM_KEYS[5] == (RealmKey, PrivateKey);
    assert REALM_KEYS[6] == (RealmKey, Certificate);
  }

  lemma CredentialsGrow(spec: Spec, world: World, a: Reads, b: Reads)
    requires Grows(a, b)
    ensures TrinoRead(spec, a) ==>
              TrinoRead(spec, b) && CredentialsOf(spec, world, b) == CredentialsOf(spec, world, a)
    ensures ClientSeen(spec, a) ==>
              ClientSeen(spec, b) && OpaClientOf(spec, world, b) == OpaClientOf(spec, world, a)
  {
  }

  lemma OidcGrows(spec: Spec, world: World, a: Reads, b: Reads, oidc: OidcConfig)
    requires Grows(a, b) && OidcResolved(spec, world, a, oidc)
    ensures OidcResolved(spec, world, b, oidc)
  {
  }

  lemma StoreGrows(spec: Spec, world: World, a: Reads, b: Reads, store: ObjectStore)
    requires Grows(a, b) && StoreResolved(spec, world, a, store)
    ensures StoreResolved(spec, world, b, store)
  {
  }

  lemma OutputGrows(spec: Spec, world: World, a: Reads, b: Reads, output: Output)
    requires Grows(a, b) && OutputLegal(spec, world, a, output)
    ensures OutputLegal(spec, world, b, output)
  {
    if output.realm.Some? {
      RealmGrows(a, b, spec.keycloakNs);
    }
    CredentialsGrow(spec, world, a, b);
  }

  /** The law of a pass is that what it puts out is legal. */
  ghost predicate Governed(spec: Spec, world: World, law: Law) {
    forall seen, output {:trigger OutputLegal(spec, world, seen, output)} ::
      law(seen, output) <==> OutputLegal(spec, world, seen, output)
  }

  ghost function LawOf(spec: Spec, world: World): (law: Law)
    ensures Governed(spec, world, law) && law(map[], NOTHING)
  {
    var law := (seen, output) => OutputLegal(spec, world, seen, output);
    assert Monotone(law) by {
      forall a, b, output | Grows(a, b) && law(a, output)
        ensures law(b, output)
      {
        OutputGrows(spec, world, a, b, output);
      }
    }
    assert OutputLegal(spec, world, map[], NOTHING);
    law
  }

  /** A stage that did not fail has made sure of its generated Secrets, and has hashed its
      configuration; Trino's is stored as it was hashed. */
  ghost predicate StageDone(spec: Spec, c: Cond, o: Outcome, f: Facts) {
    match c
    case Postgres => spec.lakekeeper && spec.postgresEmbedded ==> (spec.lakekeeperNs, PostgresLogin) in f.made
    case Minio => spec.lakekeeper && spec.storageEmbedded ==> (spec.minioNs, MinioKeys) in f.made
    case Auth => Embedded(spec) ==>
      && (spec.keycloakNs, RealmKey) in f.made && (spec.keycloakNs, KeycloakAdmin) in f.made
      && (spec.keycloakNs, Oidc) in f.made && f.realm
    case OpenFGA => spec.lakekeeper && spec.authz ==>
      (spec.openfgaNs, OpenFGAKey) in f.made && (spec.openfgaNs, PostgresLogin) in f.made
    case Lakekeeper => spec.lakekeeper && o.Up? ==> (spec.lakekeeperNs, EncryptionKey) in f.made
    case Trino => spec.trino ==>
      && (OAuthOn(spec) ==> (spec.trinoNs, TrinoInternal) in f.made)
      && f.trino.Some? && f.stored == Some(StoredAs(spec.trinoNs, f.trino.value))
    case Superset => spec.superset ==>
      (spec.supersetNs, PostgresLogin) in f.made && (spec.supersetNs, SupersetKey) in f.made && f.superset
    case _ => true
  }

  lemma StageStays(spec: Spec, c: Cond, o: Outcome, a: Facts, b: Facts)
    requires Behind(a, b) && StageDone(spec, c, o, a)
    ensures StageDone(spec, c, o, b)
  {
  }

  /** What a pass began with: conditions and workloads; in a calm one every stage has to be up. */
  datatype PassStart = PassStart(conditions: Conditions, workloads: Workloads, calm: bool)

  /** The stages a pass has reached, and what it has done. */
  datatype Progress = Progress(outs: Outcomes, facts: Facts)

  datatype Sheet = Sheet(spec: Spec, generation: int, pass: PassStart, conditions: Conditions, reached: Progress)

  /** The conditions are those before the pass, overwritten by the stages reached; a stage is up
      only on ready workloads, has done its part unless it failed, and is up in a calm pass. */
  ghost predicate Tidy(s: Sheet) {
    var outs := s.reached.outs;
    && s.conditions == s.pass.conditions + Written(outs, s.generation)
    && (forall c | c in outs && outs[c].Up? :: ServingFor(s.spec, s.pass.workloads, c))
    && (forall c | c in outs && !outs[c].Failed? :: StageDone(s.spec, c, outs[c], s.reached.facts))
    && (forall c | c in outs && s.pass.calm :: outs[c].Up?)
  }

  /** How a stage may end: up only on ready workloads, with its part done unless it failed, and
      up in a calm pass. */
  ghost predicate Fits(spec: Spec, workloads: Workloads, calm: bool, c: Cond, o: Outcome, done: Facts) {
    && (o.Up? ==> ServingFor(spec, workloads, c)) && (!o.Failed? ==> StageDone(spec, c, o, done))
    && (calm ==> o.Up?)
  }

  /** A test that the conditions of a pass are tidy. */
  type Tidiness = f: Sheet -> bool | forall s {:trigger Tidy(s)} :: f(s) <==> Tidy(s)
    ghost witness s => Tidy(s)

  ghost function Review(): Tidiness {
    var f: Tidiness := s => Tidy(s);
    assert Reviews(f);
    var g: Tidiness :| Reviews(g);
    g
  }

  ghost predicate Reviews(f: Tidiness) {
    forall s {:trigger Tidy(s)} :: f(s) <==> Tidy(s)
  }

  class DataPlatform {
    var spec: Spec
    var generation: int
    var conditions: Conditions
    ghost var pass: PassStart
    ghost var reached: Progress

    ghost function Now(): Sheet
      reads this
    {
      Sheet(spec, generation, pass, conditions, reached)
    }

    ghost predicate Valid()
      reads this
    {
      Review()(Sheet(spec, generation, pass, conditions, reached))
    }

    method StartPass(ghost workloads: Workloads, ghost calm: bool)
      modifies this`pass, this`reached
      ensures Valid() && pass == PassStart(conditions, workloads, calm) && reached == Progress(map[], NO_FACTS)
    {
      pass, reached := PassStart(conditions, workloads, calm), Progress(map[], NO_FACTS);
      assert Written(map[], generation) == map[];
      assert Tidy(Now());
    }

    /** `setCondition` at the end of a stage, with what the pass has done by then. */
    method SetOutcome(c: Cond, o: Outcome, ghost done: Facts)
      requires Valid() && Behind(reached.facts, done) && Fits(spec, pass.workloads, pass.calm, c, o, done)
      modifies this`conditions, this`reached
      ensures Valid() && reached == Progress(old(reached).outs[c := o], done)
      ensures conditions == old(conditions)[c := Condition(o == Up, generation)]
    {
      TidyMore(Now(), c, o, done);
      conditions := conditions[c := Condition(o.Up?, generation)];
      reached := Progress(reached.outs[c := o], done);
      assert Tidy(Now());
    }

    /** Ready, at the end of a pass. */
    method SetReady(status: bool)
      modifies this`conditions
      ensures conditions == old(conditions)[Ready := Condition(status, generation)]
    {
      conditions := conditions[Ready := Condition(status, generation)];
    }

    /** `conditionTrue` as it is written. */
    method IsTrue(c: Cond) returns (b: bool)
      ensures b <==> True(conditions, c)
    {
      b := c in conditions && conditions[c].status;
    }

    /** `conditionTrue`: the outcome of a stage of this pass, or else what an earlier pass left. */
    method ConditionTrue(c: Cond) returns (b: bool)
      requires Valid()
      ensures b == if c in reached.outs then reached.outs[c].Up? else True(pass.conditions, c)
    {
      assert Tidy(Now());
      b := c in conditions && conditions[c].status;
      assert c in reached.outs ==> c in Written(reached.outs, generation);
    }
  }

  lemma TidyMore(s: Sheet, c: Cond, o: Outcome, done: Facts)
    requires Tidy(s) && Behind(s.reached.facts, done) && Fits(s.spec, s.pass.workloads, s.pass.calm, c, o, done)
    ensures Tidy(s.(conditions := s.conditions[c := Condition(o.Up?, s.generation)],
                    reached := Progress(s.reached.outs[c := o], done)))
  {
    var outs := s.reached.outs;
    assert Written(outs[c := o], s.generation) == Written(outs, s.generation)[c := Condition(o.Up?, s.generation)];
    forall d | d in outs && !outs[d].Failed?
      ensures StageDone(s.spec, d, outs[d], done)
    {
      StageStays(s.spec, d, outs[d], s.reached.facts, done);
    }
  }

  lemma CalmUp(s: Sheet, c: Cond)
    requires Tidy(s) && c in s.reached.outs
    ensures s.pass.calm ==> s.reached.outs[c].Up?
  {
  }

  /** What does not change during a pass. */
  datatype Rules = Rules(spec: Spec, pass: PassStart, world: World, start: Start)

  /** Custom resource and API server belong to the same pass. In a smooth pass requests are
      answered, workloads are there, and Secrets are whole; in a calm one, workloads are ready
      and Jobs are done. */
  ghost predicate Agreed(r: Rules) {
    && r.pass.workloads == r.world.workloads && r.start.hash == r.spec.seedHash
    && Governed(r.spec, r.world, r.start.law)
    && (r.start.smooth ==> Smooth(r.spec, r.world, r.start.secrets, true))
    && (r.pass.calm ==>
          && r.start.smooth
          && Calm(r.spec, r.world, r.start.secrets, r.start.jobs, true))
  }

  /** A test that the rules of a pass are agreed. */
  type Agreement = f: Rules -> bool | forall r {:trigger Agreed(r)} :: f(r) <==> Agreed(r)
    ghost witness r => Agreed(r)

  ghost function Agrees(): Agreement {
    var f: Agreement := r => Agreed(r);
    assert IsAgreement(f);
    var g: Agreement :| IsAgreement(g);
    g
  }

  ghost predicate IsAgreement(f: Agreement) {
    forall r {:trigger Agreed(r)} :: f(r) <==> Agreed(r)
  }

  ghost function RulesOf(dp: DataPlatform, api: Api): Rules
    reads dp, api
  {
    Rules(dp.spec, dp.pass, api.world, api.start)
  }

  ghost predicate Ruled(dp: DataPlatform, api: Api)
    reads dp, api
  {
    Agrees()(Rules(dp.spec, dp.pass, api.world, api.start))
  }

  ghost function Done(api: Api): Facts
    reads api
  {
    FactsOf(api.notes, api.output)
  }

  ghost predicate InPass(dp: DataPlatform, api: Api)
    reads dp, api
  {
    dp.Valid() && api.Valid() && api.mark == dp.reached.facts
  }

  /** The end of a stage. */
  method Settle(dp: DataPlatform, api: Api, c: Cond, o: Outcome)
    requires InPass(dp, api) && Ruled(dp, api) && Fits(dp.spec, api.world.workloads, dp.pass.calm, c, o, Done(api))
    modifies dp`conditions, dp`reached, api`mark
    ensures InPass(dp, api) && dp.reached.outs == old(dp.reached.outs)[c := o]
  {
    StageEnds(dp, api);
    dp.SetOutcome(c, o, Done(api));
    api.Mark();
  }

  lemma StageEnds(dp: DataPlatform, api: Api)
    requires InPass(dp, api) && Ruled(dp, api)
    ensures api.world.workloads == dp.pass.workloads && Behind(dp.reached.facts, Done(api))
  {
    assert Agreed(RulesOf(dp, api)) && Legal(api.Now());
  }

  lemma SeedHash(dp: DataPlatform, api: Api)
    requires Ruled(dp, api)
    ensures api.start.hash == dp.spec.seedHash
  {
    assert Agreed(RulesOf(dp, api));
  }

  lemma MadeThere(api: Api, key: Key)
    requires api.Valid() && key in api.notes.made
    ensures key in api.secrets
  {
    assert Legal(api.Now());
  }

  /** What may be put out next. */
  lemma Lawful(dp: DataPlatform, api: Api, output: Output)
    requires Ruled(dp, api) && api.Valid()
    requires OutputLegal(dp.spec, api.world, api.notes.seen, api.output) ==>
               OutputLegal(dp.spec, api.world, api.notes.seen, output)
    ensures api.start.law(api.notes.seen, output)
  {
    assert Agreed(RulesOf(dp, api)) && Legal(api.Now());
    assert OutputLegal(dp.spec, api.world, api.notes.seen, api.output);
  }

  /** In a smooth pass requests are answered and the workloads are there; in a calm one they are
      ready. */
  ghost predicate Paced(spec: Spec, world: World, smooth: bool, calm: bool, c: Cond) {
    && (smooth ==> world.healthy && PresentFor(spec, world.workloads, c))
    && (calm ==> smooth && ServingFor(spec, world.workloads, c))
  }

  lemma PaceOf(dp: DataPlatform, api: Api, c: Cond)
    requires Ruled(dp, api)
    ensures Paced(dp.spec, api.world, api.start.smooth, dp.pass.calm, c)
  {
    assert Agreed(RulesOf(dp, api));
  }

  /** The outcome is the workload's readiness, or, unless requests are answered, a failure. */
  ghost predicate ReadyEnd(world: World, ns: string, name: Workload, o: Outcome) {
    o == OutcomeOf(AnswerOf(world.workloads, ns, name)) || (!world.healthy && o.Failed?)
  }

  /** Before OPA: Keycloak's credentials are still protected everywhere. */
  ghost predicate InHead(dp: DataPlatform, api: Api)
    reads dp, api
  {
    InPass(dp, api) && api.notes.opaWrites == {} && api.notes.stored == None
  }

  ghost function OutcomeOf(a: Answer): Outcome {
    match a
    case Error => Failed
    case No => Waiting
    case Yes => Up
  }

  /** The end of most stages: after everything is applied, the workload's readiness. */
  method Finish(api: Api, applied: bool, ns: string, name: Workload) returns (o: Outcome)
    ensures o == if applied then OutcomeOf(AnswerOf(api.world.workloads, ns, name)) else Failed
  {
    if !applied {
      return Failed;
    }
    var a := api.Ready(ns, name);
    o := if a.Error? then Failed else if a.Yes? then Up else Waiting;
  }

  ghost predicate WholeIfThere(secrets: Secrets, key: Key) {
    key in secrets ==> FieldsOf(key.1) <= secrets[key].Keys
  }

  /** A generated Secret that is there is whole in a smooth pass. */
  lemma GeneratedWhole(spec: Spec, t: Account, key: Key)
    requires Legal(t) && WholeSecrets(spec, t.start.secrets) && Generated(key.1)
    ensures WholeIfThere(t.secrets, key)
  {
    if key in t.secrets {
      StaysWhole(t.start.secrets, t.secrets, t.notes.opaWrites, t.notes.seen, key);
    }
  }

  ghost predicate JobDone(jobs: Jobs, ns: string, name: JobName) {
    (ns, name) in jobs && Succeeded(jobs[(ns, name)]) && !jobs[(ns, name)].deleting
  }

  lemma SmoothWhole(dp: DataPlatform, api: Api, key: Key)
    requires Ruled(dp, api) && api.Valid() && Generated(key.1)
    ensures api.start.smooth ==> WholeIfThere(api.secrets, key)
  {
    assert Agreed(RulesOf(dp, api)) && Legal(api.Now());
    if api.start.smooth {
      GeneratedWhole(dp.spec, api.Now(), key);
    }
  }

  ghost predicate FgaResolved(spec: Spec, workloads: Workloads, fga: FgaConfig) {
    fga.enabled == spec.authz && (fga.opaUrl <==> spec.authz && Serving(workloads, spec.openfgaNs, PostgresSet))
  }

  /** What the stages before Trino resolved. */
  ghost predicate Resolved(spec: Spec, world: World, seen: Reads,
                           oidc: OidcConfig, fga: FgaConfig, store: ObjectStore) {
    && OidcResolved(spec, world, seen, oidc) && StoreResolved(spec, world, seen, store)
    && if spec.lakekeeper then FgaResolved(spec, world.workloads, fga) else fga == NO_FGA
  }

  lemma ResolvedGrows(spec: Spec, world: World, a: Reads, b: Reads, oidc: OidcConfig, fga: FgaConfig,
                      store: ObjectStore)
    requires Grows(a, b) && Resolved(spec, world, a, oidc, fga, store)
    ensures Resolved(spec, world, b, oidc, fga, store)
  {
    OidcGrows(spec, world, a, b, oidc);
    StoreGrows(spec, world, a, b, store);
  }

  /** A stage leaves the outcomes of the others alone. */
  ghost predicate Touched(outs: Outcomes, outs': Outcomes, stage: Cond) {
    forall c | c != stage :: (c in outs <==> c in outs') && (c in outs ==> outs[c] == outs'[c])
  }

  ghost predicate SeedingEnabled(spec: Spec) {
    spec.trino && spec.lakekeeper && spec.sampleData && (spec.auth ==> spec.authEmbedded)
  }

  ghost predicate True(conditions: Conditions, c: Cond) {
    c in conditions && conditions[c].status
  }
}

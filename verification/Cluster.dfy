/** The cluster as the operator sees it: Secrets that hold generated credentials, the two
    one-shot Jobs, and the remote calls it makes. Any API call may fail at any time. */
module Cluster {
  import opened Wrappers
  import ConfigHash

  // --- Names the operator uses ---

  /** Secrets: "minio", "postgres", "openfga", "keycloak-admin", "keycloak-realm-key",
      "lakekeeper-encryption", "superset", "trino-internal" and "oidc", which are generated;
      "minio-mc", "trino-config", "trino-catalog-lakekeeper", "superset-oidc" and
      "trino-sample-data-oidc", which are rewritten in every pass; and other people's. */
  datatype Secret =
    | MinioKeys | PostgresLogin | OpenFGAKey | KeycloakAdmin | RealmKey | EncryptionKey | SupersetKey | TrinoInternal
    | Oidc
    | MinioMc | TrinoConfig | TrinoCatalog | SupersetOidc | SampleDataOidc
    | OtherSecret(name: string)

  /** Keys of a Secret's data. */
  datatype Field =
    | Username | Password | Database | AccessKey | SecretKey | ApiKey | PrivateKey | Certificate
    | PgEncryptionKey | CookieKey | SharedSecret | McHost
    | CoordinatorConfig | WorkerConfig | AccessControlConfig
    | ClientId | TrinoClientId | TrinoClientSecret | OperatorClientId | OperatorClientSecret
    | OpaClientId | OpaClientSecret | SupersetClientId | SupersetClientSecret
    | OtherField(name: string)

  /** "minio-create-bucket" and "trino-sample-data". */
  datatype JobName = BucketJob | SampleJob

  datatype Workload =
    | PostgresSet | MinioSet | KeycloakDeployment | OpenFGADeployment | LakekeeperDeployment
    | TrinoDeployment | SupersetDeployment | RedisDeployment

  type Data = map<Field, string>

  /** Everything is named by namespace and name. */
  type Key = (string, Secret)

  type JobKey = (string, JobName)

  type Secrets = map<Key, Data>

  type Jobs = map<JobKey, Job>

  type Workloads = map<(string, Workload), Answer>

  /** What an upgrade adds to an older OIDC Secret. */
  const ADDED: set<Field> := {OpaClientId, OpaClientSecret, SupersetClientId, SupersetClientSecret}

  /** Secrets the operator generates once and never rewrites. The OIDC client secrets of
      Keycloak are generated too, but share their name with a Secret rewritten for OPA. */
  predicate Generated(s: Secret) {
    || s.MinioKeys? || s.PostgresLogin? || s.OpenFGAKey? || s.KeycloakAdmin? || s.RealmKey?
    || s.EncryptionKey? || s.SupersetKey? || s.TrinoInternal?
  }

  /** Secrets the operator rewrites in every pass. */
  predicate Rewritten(s: Secret) {
    s.MinioMc? || s.TrinoConfig? || s.TrinoCatalog? || s.SupersetOidc? || s.SampleDataOidc?
  }

  /** The keys that the readers of a Secret rely on. An older OIDC Secret may lack the ones that
      an upgrade adds. */
  function FieldsOf(s: Secret): set<Field> {
    match s
    case MinioKeys => {AccessKey, SecretKey}
    case PostgresLogin => {Username, Password, Database}
    case OpenFGAKey => {ApiKey}
    case KeycloakAdmin => {Username, Password}
    case RealmKey => {PrivateKey, Certificate}
    case EncryptionKey => {PgEncryptionKey}
    case SupersetKey => {CookieKey}
    case TrinoInternal => {SharedSecret}
    case Oidc => {ClientId, TrinoClientId, TrinoClientSecret, OperatorClientId, OperatorClientSecret}
    case _ => {}
  }

  /** What a generated Secret holds besides random values. */
  function FixedOf(s: Secret): Data {
    match s
    case PostgresLogin => map[Username := "postgres"]
    case KeycloakAdmin => map[Username := "admin"]
    case Oidc => map[ClientId := "lakekeeper", TrinoClientId := "trino", OperatorClientId := "operator",
                     OpaClientId := "opa", SupersetClientId := "superset"]
    case _ => map[]
  }

  /** A Secret as it is generated. */
  ghost predicate Fresh(s: Secret, data: Data) {
    FieldsOf(s) <= data.Keys && Keeps(FixedOf(s), data)
  }

  /** Where a credential is: namespace, Secret and key. */
  type Credential = (string, Secret, Field)

  // --- Write-once credentials ---

  ghost predicate Protected(key: Key, opaNamespaces: set<string>) {
    Generated(key.1) || (key.1 == Oidc && key.0 !in opaNamespaces)
  }

  /** Every key set in a is still set, to the same value, in b. */
  ghost predicate Keeps(a: Data, b: Data) {
    forall k | k in a :: k in b && b[k] == a[k]
  }

  ghost predicate Unchanged(a: Secrets, b: Secrets, key: Key) {
    (key in a <==> key in b) && (key in a ==> b[key] == a[key])
  }

  ghost predicate WriteOnce(a: Secrets, b: Secrets, opaNamespaces: set<string>) {
    forall key | key in a && Protected(key, opaNamespaces) :: key in b && Keeps(a[key], b[key])
  }

  lemma WriteOnceTransitive(a: Secrets, b: Secrets, c: Secrets, opaNamespaces: set<string>)
    requires WriteOnce(a, b, opaNamespaces) && WriteOnce(b, c, opaNamespaces)
    ensures WriteOnce(a, c, opaNamespaces)
  {
  }

  predicate Readable(secrets: Secrets, c: Credential) {
    (c.0, c.1) in secrets && c.2 in secrets[(c.0, c.1)]
  }

  /** Keycloak's Secret in that namespace has lost, or never had, Trino's credentials. */
  predicate Lacks(secrets: Secrets, ns: string) {
    (ns, Oidc) in secrets && TrinoClientSecret !in secrets[(ns, Oidc)]
  }

  ghost predicate NeverRegained(a: Secrets, b: Secrets) {
    forall ns | Lacks(a, ns) :: Lacks(b, ns)
  }

  /** The credentials a pass has read, and what they were. */
  type Reads = map<Credential, string>

  ghost predicate Grows(a: Reads, b: Reads) {
    forall c | c in a :: c in b && b[c] == a[c]
  }

  /** What was read is still so, unless it was never protected. */
  ghost predicate ReadsHeld(secrets: Secrets, opaNamespaces: set<string>, seen: Reads) {
    forall c | c in seen && Protected((c.0, c.1), opaNamespaces) ::
      Readable(secrets, c) && secrets[(c.0, c.1)][c.2] == seen[c]
  }

  /** Notes of a pass: what it has read, the generated Secrets it has made sure of, where it wrote
      OPA's copy of the credentials, and where it stored Trino's configuration. */
  datatype Notes = Notes(seen: Reads, made: set<Key>, opaWrites: set<string>, stored: Option<Stored>)

  const NO_NOTES := Notes(map[], {}, {}, None)

  /** What was read and made still is. */
  ghost predicate Since(a: Notes, b: Notes) {
    Grows(a.seen, b.seen) && forall key | key in a.made :: key in b.made
  }

  /** And neither OPA's copy nor Trino's configuration was written. */
  ghost predicate Later(a: Notes, b: Notes) {
    Since(a, b) && b.opaWrites == a.opaWrites && b.stored == a.stored
  }

  datatype SupersetTexts = SupersetTexts(config: string, bootstrap: string)

  /** Trino's configuration: the texts that are hashed, and the catalog files. */
  datatype TrinoOutput = TrinoOutput(texts: ConfigHash.TrinoTexts, files: Data)

  /** What a pass derives from what it has read: the texts it hashes, and OPA's copy of the
      credentials. */
  datatype Output = Output(
    realm: Option<string>, superset: Option<SupersetTexts>, trino: Option<TrinoOutput>, copy: Option<(string, string)>)

  const NOTHING := Output(None, None, None, None)

  /** Credentials of an external identity provider and object store, resolved. */
  datatype External = External(
    clientId: string, clientSecret: string, supersetId: string, supersetSecret: string,
    accessKey: string, secretKey: string)

  /** What has happened to the Secrets since the start of a pass: no credential changed, a lost
      one did not come back, and new Secrets are whole. */
  ghost predicate Sound(a: Secrets, b: Secrets, opaWrites: set<string>, seen: Reads) {
    && WriteOnce(a, b, opaWrites) && NeverRegained(a, b) && ReadsHeld(b, opaWrites, seen)
    && NewWhole(a, b, opaWrites)
    && (forall ns | (ns, Oidc, TrinoClientSecret) in seen :: !Lacks(a, ns))
  }

  ghost predicate NewWhole(a: Secrets, b: Secrets, opaWrites: set<string>) {
    forall key | key in b && key !in a && Protected(key, opaWrites) :: Fresh(key.1, b[key])
  }

  lemma SoundRead(a: Secrets, b: Secrets, opaWrites: set<string>, seen: Reads, c: Credential)
    requires Sound(a, b, opaWrites, seen) && Readable(b, c) && Protected((c.0, c.1), opaWrites)
    ensures Sound(a, b, opaWrites, seen[c := b[(c.0, c.1)][c.2]])
    ensures Grows(seen, seen[c := b[(c.0, c.1)][c.2]])
  {
  }

  /** A Secret that is created whole, added to, or not protected. */
  lemma SoundWrite(a: Secrets, b: Secrets, opaWrites: set<string>, seen: Reads, key: Key, data: Data)
    requires Sound(a, b, opaWrites, seen)
    requires || (key !in b && Fresh(key.1, data))
             || (key in b && Keeps(b[key], data) && data.Keys <= b[key].Keys + ADDED)
             || Rewritten(key.1)
    ensures Sound(a, b[key := data], opaWrites, seen)
  {
    assert TrinoClientSecret !in ADDED;
    if Rewritten(key.1) {
      assert !Protected(key, opaWrites);
    }
  }

  lemma SoundOpa(a: Secrets, b: Secrets, opaWrites: set<string>, seen: Reads, ns: string, data: Data)
    requires Sound(a, b, opaWrites, seen) && TrinoClientSecret !in data
    ensures Sound(a, b[(ns, Oidc) := data], opaWrites + {ns}, seen)
  {
  }

  /** A Secret that was whole, or is new, is whole. */
  lemma StaysWhole(a: Secrets, b: Secrets, opaWrites: set<string>, seen: Reads, key: Key)
    requires Sound(a, b, opaWrites, seen) && key in b && Protected(key, opaWrites)
    requires key in a ==> FieldsOf(key.1) <= a[key].Keys
    ensures FieldsOf(key.1) <= b[key].Keys
  {
  }

  /** OPA's copy is what the Secret holds in the namespaces it was written to. */
  ghost predicate CopyHeld(secrets: Secrets, opaWrites: set<string>, copy: Option<(string, string)>) {
    forall ns | ns in opaWrites ::
      copy.Some? && (ns, Oidc) in secrets && secrets[(ns, Oidc)] == OpaData(copy.value.0, copy.value.1)
  }

  /** Trino's two Secrets, and what they hold. */
  datatype Stored = Stored(ns: string, config: Data, files: Data)

  ghost predicate Stores(secrets: Secrets, t: Stored) {
    && (t.ns, TrinoConfig) in secrets && secrets[(t.ns, TrinoConfig)] == t.config
    && (t.ns, TrinoCatalog) in secrets && secrets[(t.ns, TrinoCatalog)] == t.files
  }

  /** Trino's configuration and catalog files as they are stored. */
  function StoredAs(ns: string, t: TrinoOutput): Stored {
    Stored(ns, ConfigData(t.texts), t.files)
  }

  function ConfigData(t: ConfigHash.TrinoTexts): Data {
    map[CoordinatorConfig := t.coordinator, WorkerConfig := t.worker]
    + if t.accessControl == "" then map[] else map[AccessControlConfig := t.accessControl]
  }

  function FileData(files: map<string, string>): Data {
    map f | f in files :: OtherField(f) := files[f]
  }

  /** What a pass may put out, given what it has read. */
  type Law = law: (Reads, Output) -> bool | Monotone(law) ghost witness (seen, output) => true

  ghost predicate Monotone(law: (Reads, Output) -> bool) {
    forall a, b, output | Grows(a, b) && law(a, output) :: law(b, output)
  }

  // --- Jobs ---

  datatype Job = Job(deleting: bool, complete: bool, succeeded: nat, failed: bool, hash: string, writableConfig: bool)

  predicate Succeeded(job: Job) {
    job.complete || job.succeeded > 0
  }

  /** A Job goes on by itself: what it runs stays, it fails or succeeds but not both, and
      either is final. */
  predicate Moves(a: Job, b: Job) {
    && b.hash == a.hash && b.writableConfig == a.writableConfig
    && !(b.failed && Succeeded(b)) && (a.failed ==> b.failed) && (Succeeded(a) ==> Succeeded(b))
  }

  /** A Job that did not finish and should not go on: it failed, or it is the seed Job of
      another seed, or a bucket Job from before it could write its config. */
  predicate Unwanted(name: JobName, job: Job, hash: string) {
    && !Succeeded(job)
    && (job.failed || if name == SampleJob then job.hash != hash else !job.writableConfig)
  }

  /** Job a had become r when the operator read and deleted it, and b at the end of the pass. */
  predicate DeletedAs(name: JobName, a: Job, r: Job, b: Job, hash: string) {
    Moves(a, r) && !r.deleting && Unwanted(name, r, hash) && Moves(r, b) && b.deleting
  }

  /** Job a had become r when the operator read it, and is b now: deleted exactly if r was
      unwanted. */
  predicate VisitedAs(name: JobName, a: Job, r: Job, b: Job, hash: string) {
    Moves(a, r) && !r.deleting && Moves(r, b) && (b.deleting <==> Unwanted(name, r, hash))
  }

  /** All that may happen to a Job in a pass: a finished one, or one that is going away, stays
      as it is; another may go on, and is deleted only if it was deletable when it was read. */
  ghost predicate JobStep(name: JobName, a: Job, b: Job, hash: string) {
    if Succeeded(a) || a.deleting then b == a
    else if b.deleting then exists r :: DeletedAs(name, a, r, b, hash)
    else Moves(a, b)
  }

  lemma JobStepTransitive(name: JobName, a: Job, b: Job, c: Job, hash: string)
    requires JobStep(name, a, b, hash) && JobStep(name, b, c, hash)
    ensures JobStep(name, a, c, hash)
  {
    if !Succeeded(a) && !a.deleting && !Succeeded(b) && !b.deleting && c.deleting {
      var r :| DeletedAs(name, b, r, c, hash);
      assert DeletedAs(name, a, r, c, hash);
    }
  }

  /** A Job can be deleted although it has succeeded, exactly when it had neither finished nor
      failed before and is outdated: it may succeed between being read and being deleted. */
  lemma SucceededDeletedExact(name: JobName, a: Job, hash: string)
    requires !a.deleting
    ensures (exists b :: JobStep(name, a, b, hash) && b.deleting && Succeeded(b))
            <==> && !a.complete && a.succeeded == 0 && !a.failed
                 && if name == SampleJob then a.hash != hash else !a.writableConfig
  {
    var b := a.(deleting := true, complete := true);
    if !Succeeded(a) && !a.failed && Unwanted(name, a, hash) {
      assert DeletedAs(name, a, a, b, hash);
      assert JobStep(name, a, b, hash) && b.deleting && Succeeded(b);
    }
  }

  /** The operator has looked at the Job: an absent one now exists for the current seed, one that
      is going away or has succeeded is as it was, and any other was deleted exactly if it was
      read unwanted. It counts as done if it was read succeeded and not going away. */
  ghost predicate JobVisited(a: Jobs, b: Jobs, key: JobKey, hash: string, done: bool) {
    && key in b
    && if key !in a then !done && b[key] == Job(false, false, 0, false, hash, true)
       else if a[key].deleting then !done && b[key] == a[key]
       else if a[key].complete || a[key].succeeded > 0 then done && b[key] == a[key]
       else exists r :: VisitedAs(key.1, a[key], r, b[key], hash) && (done <==> Succeeded(r))
  }

  /** The operator creates a Job only for the current seed. */
  ghost predicate JobsStep(a: Jobs, b: Jobs, hash: string) {
    && (forall key | key in a :: key in b && JobStep(key.1, a[key], b[key], hash))
    && (forall key | key in b && key !in a :: b[key].hash == hash)
  }

  lemma JobsStepReflexive(a: Jobs, hash: string)
    ensures JobsStep(a, a, hash)
  {
  }

  lemma OneJobStep(a: Jobs, key: JobKey, b: Job, hash: string)
    requires key in a && JobStep(key.1, a[key], b, hash)
    ensures JobsStep(a, a[key := b], hash)
  {
    JobsStepReflexive(a, hash);
  }

  lemma JobsStepTransitive(a: Jobs, b: Jobs, c: Jobs, hash: string)
    requires JobsStep(a, b, hash) && JobsStep(b, c, hash)
    ensures JobsStep(a, c, hash)
  {
    forall key | key in a
      ensures key in c && JobStep(key.1, a[key], c[key], hash)
    {
      JobStepTransitive(key.1, a[key], b[key], c[key], hash);
    }
  }

  // --- Remote calls, in the order they are made ---

  datatype Call =
    | EnsureStore(id: string)
    | ApplyLakekeeper
    | Bootstrap | Grants | Warehouse | Roles
    | Tuples(id: string)

  /** Whether a workload is ready; asking for one that is absent is an error. */
  datatype Answer = Error | No | Yes

  function AnswerOf(workloads: Workloads, ns: string, name: Workload): Answer {
    if (ns, name) in workloads then workloads[(ns, name)] else Error
  }

  function OpaData(id: string, secret: string): Data {
    map[OpaClientId := id, OpaClientSecret := secret]
  }

  /** Client ids that were missing are the standard ones. */
  ghost predicate UpgradedIds(a: Data, b: Data) {
    && (OpaClientId in b && OpaClientId !in a ==> b[OpaClientId] == "opa")
    && (SupersetClientId in b && SupersetClientId !in a ==> b[SupersetClientId] == "superset")
  }

  /** What was read for a list of Secrets and keys of one namespace. */
  ghost function Values(seen: Reads, ns: string, keys: seq<(Secret, Field)>): (values: seq<string>)
    ensures |values| == |keys|
    ensures forall k | 0 <= k < |keys| :: values[k] == Value(seen, (ns, keys[k].0, keys[k].1))
  {
    seq(|keys|, k requires 0 <= k < |keys| => Value(seen, (ns, keys[k].0, keys[k].1)))
  }

  ghost function Value(seen: Reads, c: Credential): string {
    if c in seen then seen[c] else ""
  }

  ghost predicate AllReadable(secrets: Secrets, ns: string, keys: seq<(Secret, Field)>) {
    forall k | 0 <= k < |keys| :: Readable(secrets, (ns, keys[k].0, keys[k].1))
  }

  ghost predicate AllRead(seen: Reads, ns: string, keys: seq<(Secret, Field)>) {
    forall k | 0 <= k < |keys| :: (ns, keys[k].0, keys[k].1) in seen
  }

  lemma OneMore(a: Reads, b: Reads, ns: string, keys: seq<(Secret, Field)>, key: (Secret, Field))
    requires Grows(a, b) && AllRead(a, ns, keys) && (ns, key.0, key.1) in b
    ensures AllRead(b, ns, keys + [key]) && Values(b, ns, keys + [key]) == Values(a, ns, keys) + [b[(ns, key.0, key.1)]]
  {
  }

  // --- The books of a pass ---

  /** What a pass has done: the Secrets it has made sure of, whether it has hashed the realm and
      Superset's configuration, and Trino's configuration and where it is stored. */
  datatype Facts = Facts(
    made: set<Key>, realm: bool, superset: bool, trino: Option<TrinoOutput>, stored: Option<Stored>)

  const NO_FACTS := Facts({}, false, false, None, None)

  /** The facts in a still hold in b. */
  ghost predicate Behind(a: Facts, b: Facts) {
    && (forall key | key in a.made :: key in b.made) && (a.realm ==> b.realm) && (a.superset ==> b.superset)
    && (a.stored.Some? ==> b.stored == a.stored && b.trino == a.trino)
  }

  /** What a pass has done so far. */
  ghost function FactsOf(notes: Notes, output: Output): Facts {
    Facts(notes.made, output.realm.Some?, output.superset.Some?, output.trino, notes.stored)
  }

  /** How a pass begins; a smooth one has to succeed. */
  datatype Start = Start(secrets: Secrets, jobs: Jobs, hash: string, law: Law, smooth: bool)

  /** What a pass meets: workloads and their readiness, external credentials, and whether every
      request is answered. */
  datatype World = World(workloads: Workloads, external: External, healthy: bool)

  /** Secrets and Jobs at the start of a pass and now, what the pass remembers of them, and what
      it had done when its last stage ended. */
  datatype Account = Account(start: Start, secrets: Secrets, jobs: Jobs, output: Output, notes: Notes, mark: Facts)

  /** Since the start of the pass no credential changed, except Keycloak's where OPA's copy
      replaced them, no Job was treated unfairly, what the pass remembers is so, what it puts out
      obeys its law, and what it had done is still done. */
  ghost predicate Legal(t: Account) {
    && Sound(t.start.secrets, t.secrets, t.notes.opaWrites, t.notes.seen)
    && (forall key | key in t.notes.made :: key in t.secrets)
    && CopyHeld(t.secrets, t.notes.opaWrites, t.output.copy)
    && (t.notes.stored.Some? ==> Stores(t.secrets, t.notes.stored.value))
    && JobsStep(t.start.jobs, t.jobs, t.start.hash)
    && t.start.law(t.notes.seen, t.output)
    && Behind(t.mark, FactsOf(t.notes, t.output))
  }

  lemma LegalStart(start: Start)
    requires start.law(map[], NOTHING)
    ensures Legal(Account(start, start.secrets, start.jobs, NOTHING, NO_NOTES, NO_FACTS))
  {
    JobsStepReflexive(start.jobs, start.hash);
  }

  /** A Secret that is created whole, added to before OPA's copy is written, or rewritten before
      Trino's are stored. */
  ghost predicate Writable(secrets: Secrets, notes: Notes, key: Key, data: Data) {
    || (key !in secrets && Fresh(key.1, data) && !Rewritten(key.1))
    || (&& key in secrets && key.1 == Oidc && notes.opaWrites == {}
        && Keeps(secrets[key], data) && data.Keys <= secrets[key].Keys + ADDED)
    || (Rewritten(key.1) && (notes.stored.Some? ==> key.1 != TrinoConfig && key.1 != TrinoCatalog))
  }

  lemma LegalWrite(t: Account, key: Key, data: Data)
    requires Legal(t) && Writable(t.secrets, t.notes, key, data)
    ensures Legal(t.(secrets := t.secrets[key := data]))
  {
    SoundWrite(t.start.secrets, t.secrets, t.notes.opaWrites, t.notes.seen, key, data);
    CopyStays(t, key, data);
    assert t.notes.stored.Some? ==> Stores(t.secrets[key := data], t.notes.stored.value);
  }

  lemma CopyStays(t: Account, key: Key, data: Data)
    requires CopyHeld(t.secrets, t.notes.opaWrites, t.output.copy) && Writable(t.secrets, t.notes, key, data)
    ensures CopyHeld(t.secrets[key := data], t.notes.opaWrites, t.output.copy)
  {
    assert forall ns | ns in t.notes.opaWrites :: (ns, Oidc) in t.secrets && (ns, Oidc) != key;
  }

  lemma LegalOpa(t: Account, ns: string, id: string, secret: string)
    requires Legal(t) && t.notes.opaWrites == {}
    requires t.start.law(t.notes.seen, t.output.(copy := Some((id, secret))))
    ensures Legal(t.(secrets := t.secrets[(ns, Oidc) := OpaData(id, secret)],
                     output := t.output.(copy := Some((id, secret))),
                     notes := t.notes.(opaWrites := {ns})))
  {
    SoundOpa(t.start.secrets, t.secrets, {}, t.notes.seen, ns, OpaData(id, secret));
    assert {} + {ns} == {ns};
  }

  lemma LegalMade(t: Account, key: Key)
    requires Legal(t) && key in t.secrets
    ensures Legal(t.(notes := t.notes.(made := t.notes.made + {key})))
  {
  }

  lemma LegalStored(t: Account, stored: Stored)
    requires Legal(t) && t.notes.stored.None? && Stores(t.secrets, stored)
    ensures Legal(t.(notes := t.notes.(stored := Some(stored))))
  {
  }

  lemma LegalRead(t: Account, c: Credential)
    requires Legal(t) && Readable(t.secrets, c) && Protected((c.0, c.1), t.notes.opaWrites)
    ensures var notes := t.notes.(seen := t.notes.seen[c := t.secrets[(c.0, c.1)][c.2]]);
            Legal(t.(notes := notes)) && Later(t.notes, notes)
  {
    SoundRead(t.start.secrets, t.secrets, t.notes.opaWrites, t.notes.seen, c);
  }

  lemma LegalOutput(t: Account, output: Output)
    requires Legal(t) && t.start.law(t.notes.seen, output) && output.copy == t.output.copy
    requires Behind(FactsOf(t.notes, t.output), FactsOf(t.notes, output))
    ensures Legal(t.(output := output))
  {
  }

  lemma LegalMark(t: Account)
    requires Legal(t)
    ensures Legal(t.(mark := FactsOf(t.notes, t.output)))
  {
  }

  lemma LegalJobs(t: Account, jobs: Jobs)
    requires Legal(t) && JobsStep(t.jobs, jobs, t.start.hash)
    ensures Legal(t.(jobs := jobs))
  {
    JobsStepTransitive(t.start.jobs, t.jobs, jobs, t.start.hash);
  }

  /** A test that the books are legal. */
  type Legality = f: Account -> bool | forall t {:trigger Legal(t)} :: f(t) <==> Legal(t)
    ghost witness t => Legal(t)

  ghost function Audit(): Legality {
    var f: Legality := t => Legal(t);
    assert Same(f);
    var g: Legality :| Same(g);
    g
  }

  ghost predicate Same(f: Legality) {
    forall t {:trigger Legal(t)} :: f(t) <==> Legal(t)
  }

  /** The API server during one pass. The ghost fields remember how the pass began, and its
      notes. */
  class Api {
    var secrets: Secrets
    var jobs: Jobs
    var calls: seq<Call>
    var output: Output
    var world: World
    var fault: bool
    ghost var start: Start
    ghost var notes: Notes
    ghost var mark: Facts

    ghost function Now(): Account
      reads this
    {
      Account(start, secrets, jobs, output, notes, mark)
    }

    /** The books are legal. */
    ghost predicate Valid()
      reads this
    {
      Audit()(Account(start, secrets, jobs, output, notes, mark))
    }

    method StartPass(ghost hash: string, ghost law: Law, ghost smooth: bool)
      requires law(map[], NOTHING)
      modifies this
      ensures Valid() && start == Start(old(secrets), old(jobs), hash, law, smooth)
      ensures secrets == old(secrets) && jobs == old(jobs) && world == old(world)
      ensures calls == [] && output == NOTHING && notes == NO_NOTES && mark == NO_FACTS && !fault
    {
      calls, output, notes, mark, fault := [], NOTHING, NO_NOTES, NO_FACTS, false;
      start := Start(secrets, jobs, hash, law, smooth);
      LegalStart(start);
      assert Legal(Now());
    }

    /** A request whose effect is not modelled. */
    method Request() returns (ok: bool)
      modifies this`fault
      ensures world.healthy ==> ok
      ensures ok ==> fault == old(fault)
    {
      ok := *;
      ok := ok || world.healthy;
      fault := fault || !ok;
    }

    /** A write: the server may perform it although the operator sees it fail. */
    method Send() returns (done: bool, ok: bool)
      modifies this`fault
      ensures ok ==> done
      ensures world.healthy ==> ok
      ensures ok ==> fault == old(fault)
    {
      done := *;
      ok := *;
      done := done || world.healthy;
      ok := (ok && done) || world.healthy;
      fault := fault || !ok;
    }

    /** `deploymentReady` and `statefulSetReady`. */
    method Ready(ns: string, name: Workload) returns (a: Answer)
      ensures a == AnswerOf(world.workloads, ns, name)
    {
      a := if (ns, name) in world.workloads then world.workloads[(ns, name)] else Error;
    }

    method Random() returns (ok: bool, value: string)
      modifies this`fault
      ensures world.healthy ==> ok
      ensures ok ==> fault == old(fault)
    {
      ok := *;
      ok := ok || world.healthy;
      fault := fault || !ok;
      value := *;
    }

    /** Several random values; drawing any of them may fail. */
    method Randoms(n: nat) returns (ok: bool, values: seq<string>)
      modifies this`fault
      ensures |values| == n
      ensures world.healthy ==> ok
      ensures ok ==> fault == old(fault)
    {
      values := [];
      ok := true;
      for i := 0 to n
        invariant |values| == i && (world.healthy ==> ok) && (ok ==> fault == old(fault))
      {
        var more, value := Random();
        ok, values := ok && more, values + [value];
      }
    }

    method Record(call: Call)
      requires Valid()
      modifies this`calls
      ensures Valid() && calls == old(calls) + [call]
    {
      calls := calls + [call];
    }

    method Write(key: Key, data: Data) returns (ok: bool)
      requires Valid() && Writable(secrets, notes, key, data)
      modifies this`fault, this`secrets
      ensures Valid() && (secrets == old(secrets)[key := data] || (!ok && secrets == old(secrets)))
      ensures world.healthy ==> ok
      ensures ok ==> fault == old(fault)
    {
      var done;
      done, ok := Send();
      if done {
        LegalWrite(Now(), key, data);
        secrets := secrets[key := data];
        assert Legal(Now());
      }
    }

    /** `ensureGeneratedSecret`: an existing Secret is left alone. */
    method EnsureGeneratedSecret(ns: string, name: Secret, data: Data) returns (ok: bool)
      requires Valid() && !Rewritten(name) && Fresh(name, data)
      modifies this`fault, this`secrets, this`notes
      ensures Valid() && notes.(made := old(notes.made)) == old(notes) && Later(old(notes), notes)
      ensures ok ==> (ns, name) in notes.made && (ns, name) in secrets
      ensures secrets == old(secrets) || ((ns, name) !in old(secrets) && secrets == old(secrets)[(ns, name) := data])
      ensures world.healthy ==> ok
      ensures ok ==> fault == old(fault)
    {
      ok := Request();
      if !ok {
        return;
      }
      if (ns, name) !in secrets {
        ok := Write((ns, name), data);
      }
      if ok {
        Made((ns, name));
      }
    }

    ghost method Made(key: Key)
      requires Valid() && key in secrets
      modifies this`notes
      ensures Valid() && notes == old(notes).(made := old(notes.made) + {key})
    {
      LegalMade(Now(), key);
      notes := notes.(made := notes.made + {key});
      assert Legal(Now());
    }

    /** `apply` on a Secret whose data is replaced. */
    method ReplaceSecret(ns: string, name: Secret, data: Data) returns (ok: bool)
      requires Valid() && Rewritten(name) && (notes.stored.Some? ==> name != TrinoConfig && name != TrinoCatalog)
      modifies this`fault, this`secrets
      ensures Valid()
      ensures secrets == old(secrets)[(ns, name) := data] || (!ok && secrets == old(secrets))
      ensures world.healthy ==> ok
      ensures ok ==> fault == old(fault)
    {
      ok := Write((ns, name), data);
    }

    /** `apply` on a Secret of which some keys are set. */
    method MergeSecret(ns: string, name: Secret, data: Data) returns (ok: bool)
      requires Valid() && Rewritten(name) && name != TrinoConfig && name != TrinoCatalog
      modifies this`fault, this`secrets
      ensures Valid()
      ensures ok ==> (ns, name) in secrets && Keeps(data, secrets[(ns, name)])
      ensures forall key | key != (ns, name) :: key in secrets <==> key in old(secrets)
      ensures forall key | key in old(secrets) && key != (ns, name) :: secrets[key] == old(secrets)[key]
      ensures world.healthy ==> ok
      ensures ok ==> fault == old(fault)
    {
      var before: Data := if (ns, name) in secrets then secrets[(ns, name)] else map[];
      ok := ReplaceSecret(ns, name, before + data);
    }

    method StoreAll(t: Stored) returns (ok: bool)
      requires Valid() && notes.stored.None?
      modifies this`fault, this`secrets, this`notes
      ensures Valid() && notes.(stored := None) == old(notes) && (ok ==> notes.stored == Some(t))
      ensures world.healthy ==> ok
      ensures ok ==> fault == old(fault)
    {
      ok := ReplaceSecret(t.ns, TrinoConfig, t.config);
      if ok {
        ok := ReplaceSecret(t.ns, TrinoCatalog, t.files);
      }
      if ok {
        LegalStored(Now(), t);
        notes := notes.(stored := Some(t));
        assert Legal(Now());
      }
    }

    /** The end of a stage. */
    ghost method Mark()
      requires Valid()
      modifies this`mark
      ensures Valid() && mark == FactsOf(notes, output)
    {
      LegalMark(Now());
      mark := FactsOf(notes, output);
      assert Legal(Now());
    }

    /** What a pass puts out has to obey its law. */
    method Emit(more: Output)
      requires Valid() && start.law(notes.seen, more) && more.copy == output.copy
      requires Behind(FactsOf(notes, output), FactsOf(notes, more))
      modifies this`output
      ensures Valid() && output == more
    {
      LegalOutput(Now(), more);
      output := more;
      assert Legal(Now());
    }

    /** `applyTrinoConfigMap` and `applyTrinoCatalogSecret`: what is hashed is what is stored. */
    method StoreTrino(ns: string, trino: TrinoOutput) returns (ok: bool)
      requires Valid() && notes.stored.None? && start.law(notes.seen, output.(trino := Some(trino)))
      modifies this`fault, this`secrets, this`output, this`notes
      ensures Valid() && output == old(output).(trino := Some(trino)) && notes.(stored := None) == old(notes)
      ensures ok ==> notes.stored == Some(StoredAs(ns, trino))
      ensures world.healthy ==> ok
      ensures ok ==> fault == old(fault)
    {
      Emit(output.(trino := Some(trino)));
      ok := StoreAll(StoredAs(ns, trino));
    }

    /** `applyOPASecret`: replaces whatever Secret has the name "oidc" there. */
    method ReplaceOIDC(ns: string, id: string, secret: string) returns (ok: bool)
      requires Valid() && notes.opaWrites == {} && start.law(notes.seen, output.(copy := Some((id, secret))))
      modifies this`fault, this`secrets, this`output, this`notes
      ensures Valid()
      ensures || (&& secrets == old(secrets)[(ns, Oidc) := map[OpaClientId := id, OpaClientSecret := secret]]
                  && notes == old(notes).(opaWrites := {ns}) && output == old(output).(copy := Some((id, secret))))
              || (!ok && secrets == old(secrets) && notes == old(notes) && output == old(output))
      ensures world.healthy ==> ok
      ensures ok ==> fault == old(fault)
    {
      var done;
      done, ok := Send();
      if done {
        LegalOpa(Now(), ns, id, secret);
        secrets := secrets[(ns, Oidc) := OpaData(id, secret)];
        output, notes := output.(copy := Some((id, secret))), notes.(opaWrites := {ns});
        assert Legal(Now());
      }
    }

    /** `getSecretData`. */
    method GetSecretData(ns: string, name: Secret, key: Field) returns (ok: bool, value: string)
      requires Valid() && Protected((ns, name), notes.opaWrites)
      modifies this`fault, this`notes
      ensures Valid() && Later(old(notes), notes)
      ensures ok ==> Readable(secrets, (ns, name, key)) && value == secrets[(ns, name)][key]
      ensures notes == if ok then old(notes).(seen := old(notes.seen)[(ns, name, key) := value]) else old(notes)
      ensures world.healthy && Readable(secrets, (ns, name, key)) ==> ok
      ensures ok ==> fault == old(fault)
    {
      ok := Request();
      value := "";
      ok := ok && (ns, name) in secrets && key in secrets[(ns, name)];
      if ok {
        value := secrets[(ns, name)][key];
        LegalRead(Now(), (ns, name, key));
        notes := notes.(seen := notes.seen[(ns, name, key) := value]);
        assert Legal(Now());
      }
    }

    /** Several keys, one after the other; the first failure ends it. */
    method GetAll(ns: string, keys: seq<(Secret, Field)>) returns (ok: bool, values: seq<string>)
      requires Valid() && forall k | 0 <= k < |keys| :: Protected((ns, keys[k].0), notes.opaWrites)
      modifies this`fault, this`notes
      ensures Valid() && Later(old(notes), notes)
      ensures ok ==> Values(notes.seen, ns, keys) == values && AllRead(notes.seen, ns, keys)
      ensures world.healthy && AllReadable(secrets, ns, keys) ==> ok
      ensures ok ==> fault == old(fault)
    {
      values := [];
      for i := 0 to |keys|
        invariant Valid() && Later(old(notes), notes) && |values| == i && fault == old(fault)
        invariant AllRead(notes.seen, ns, keys[..i]) && Values(notes.seen, ns, keys[..i]) == values
      {
        var value;
        ghost var before := notes.seen;
        ok, value := GetSecretData(ns, keys[i].0, keys[i].1);
        if !ok {
          return;
        }
        OneMore(before, notes.seen, ns, keys[..i], keys[i]);
        assert keys[..i + 1] == keys[..i] + [keys[i]];
        values := values + [value];
      }
      ok := true;
      assert keys[..|keys|] == keys;
    }

    method AddOIDCKeys(data: Data) returns (ok: bool, more: Data)
      modifies this`fault
      ensures Keeps(data, more)
      ensures ok ==> ADDED <= more.Keys
      ensures more.Keys <= data.Keys + ADDED
      ensures UpgradedIds(data, more)
      ensures world.healthy ==> ok
      ensures ok ==> fault == old(fault)
    {
      more := data;
      ok := true;
      var secret: string;
      if OpaClientId !in more {
        more := more[OpaClientId := "opa"];
      }
      if OpaClientSecret !in more {
        ok, secret := Random();
        if !ok {
          return;
        }
        more := more[OpaClientSecret := secret];
      }
      if SupersetClientId !in more {
        more := more[SupersetClientId := "superset"];
      }
      if SupersetClientSecret !in more {
        ok, secret := Random();
        if !ok {
          return;
        }
        more := more[SupersetClientSecret := secret];
      }
    }

    /** `ensureOIDCSecretKeys`: adds the client credentials an older Secret lacks, and
        changes nothing else. */
    method EnsureOIDCSecretKeys(ns: string) returns (ok: bool)
      requires Valid() && (ns, Oidc) in secrets && notes.opaWrites == {}
      modifies this`fault, this`secrets, this`notes
      ensures Valid() && notes.(made := old(notes.made)) == old(notes) && Later(old(notes), notes)
      ensures (ns, Oidc) in secrets && Keeps(old(secrets)[(ns, Oidc)], secrets[(ns, Oidc)])
      ensures secrets == old(secrets)[(ns, Oidc) := secrets[(ns, Oidc)]]
      ensures ok ==> ADDED <= secrets[(ns, Oidc)].Keys && (ns, Oidc) in notes.made
      ensures ok ==> UpgradedIds(old(secrets)[(ns, Oidc)], secrets[(ns, Oidc)])
      ensures world.healthy ==> ok
      ensures ok ==> fault == old(fault)
    {
      var data := secrets[(ns, Oidc)];
      var more: Data;
      ok, more := AddOIDCKeys(data);
      if !ok {
        return;
      }
      if more != data {
        ok := Write((ns, Oidc), more);
      }
      if ok {
        Made((ns, Oidc));
      }
    }

    /** What a Job becomes while nobody looks. */
    method Progress(job: Job) returns (now: Job)
      requires !job.deleting && !Succeeded(job)
      ensures Moves(job, now) && !now.deleting
    {
      now := job;
      if !job.failed {
        var end: nat := *;
        now := job.(complete := end == 1, failed := end == 2);
      }
    }

    /** `jobSucceeded`. */
    method JobSucceeded(job: Job) returns (b: bool)
      ensures b <==> job.complete || job.succeeded > 0
    {
      b := job.complete || job.succeeded > 0;
    }

    /** `sampleDataJobHash` against the current seed, and `mcJobWritableConfig`. */
    method Outdated(name: JobName, job: Job, hash: string) returns (b: bool)
      ensures b <==> (name == SampleJob && job.hash != hash) || (name == BucketJob && !job.writableConfig)
    {
      b := if name.BucketJob? then !job.writableConfig else job.hash != hash;
    }

    /** `ensureMinioBucket` and `ensureSampleDataJob`: drive one Job to completion. Ready is
        reported only for a Job found succeeded and not going away, and such a Job is left
        alone. A Job that is deleted was unwanted when it was read, and, unless a request
        fails, one that was read unwanted is deleted and one that is absent is created. */
    method EnsureJob(ns: string, name: JobName, hash: string) returns (a: Answer)
      requires Valid() && hash == start.hash
      modifies this`fault, this`jobs
      ensures Valid() && JobsStep(old(jobs), jobs, hash)
      ensures a.Yes? ==> (ns, name) in jobs && Succeeded(jobs[(ns, name)]) && !jobs[(ns, name)].deleting
      ensures (ns, name) in old(jobs) && Succeeded(old(jobs)[(ns, name)]) && !old(jobs)[(ns, name)].deleting ==>
                !a.No? && jobs == old(jobs)
      ensures !a.Error? ==> JobVisited(old(jobs), jobs, (ns, name), hash, a.Yes?)
      ensures forall key | key != (ns, name) :: key in jobs <==> key in old(jobs)
      ensures world.healthy ==> !a.Error?
      ensures !a.Error? ==> fault == old(fault)
    {
      var got := Request();
      if !got {
        return Error;
      }
      var key := (ns, name);
      if key in jobs {
        a := VisitJob(key, hash);
        return;
      }
      var done, created := Send();
      if done {
        Put(key, Job(false, false, 0, false, hash, true));
      }
      a := if created then No else Error;
    }

    /** A Job that is new, or has gone on. */
    method Put(key: JobKey, job: Job)
      requires Valid()
      requires if key in jobs then JobStep(key.1, jobs[key], job, start.hash) else job.hash == start.hash
      modifies this`jobs
      ensures Valid() && jobs == old(jobs)[key := job] && JobsStep(old(jobs), jobs, start.hash)
    {
      JobsStepReflexive(jobs, start.hash);
      LegalJobs(Now(), jobs[key := job]);
      jobs := jobs[key := job];
      assert Legal(Now());
    }

    /** The Job goes on until it is read, and again until it is deleted. */
    method VisitJob(key: JobKey, hash: string) returns (a: Answer)
      requires Valid() && hash == start.hash && key in jobs
      modifies this`fault, this`jobs
      ensures Valid() && JobsStep(old(jobs), jobs, hash) && jobs.Keys == old(jobs).Keys
      ensures a.Yes? ==> Succeeded(jobs[key]) && !jobs[key].deleting
      ensures Succeeded(old(jobs)[key]) && !old(jobs)[key].deleting ==> a.Yes? && jobs == old(jobs)
      ensures !a.Error? ==> JobVisited(old(jobs), jobs, key, hash, a.Yes?)
      ensures world.healthy ==> !a.Error?
      ensures !a.Error? ==> fault == old(fault)
    {
      var job := jobs[key];
      if job.deleting {
        return No;
      }
      var finished := JobSucceeded(job);
      if finished {
        return Yes;
      }
      var r := Progress(job);
      finished := JobSucceeded(r);
      var outdated := Outdated(key.1, r, hash);
      var b := r;
      a := if finished then Yes else No;
      if !finished && (r.failed || outdated) {
        b, a := DeleteJob(r);
      }
      assert b.deleting ==> DeletedAs(key.1, job, r, b, hash);
      Put(key, b);
      assert !a.Error? ==> VisitedAs(key.1, job, r, b, hash);
    }

    /** The Job may finish before the deletion reaches it. */
    method DeleteJob(r: Job) returns (b: Job, a: Answer)
      requires !r.deleting && !Succeeded(r)
      modifies this`fault
      ensures Moves(r, b) && (a.No? ==> b.deleting) && !a.Yes?
      ensures world.healthy ==> a.No?
      ensures a.No? ==> fault == old(fault)
    {
      b := Progress(r);
      var done, deleted := Send();
      if done {
        b := b.(deleting := true);
      }
      a := if deleted then No else Error;
    }
  }
}

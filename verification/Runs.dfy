/** Whole runs of the operator: any number of passes, with arbitrary spec edits, readiness
    changes and cluster activity in between. */
module Runs {
  import opened Wrappers
  import opened Cluster
  import opened Platform
  import opened Catalog
  import opened Reconciler

  /** What one pass met and left behind. */
  datatype Pass = Pass(
    spec: Spec, generation: int, world: World, catalogClient: bool,
    secrets: Secrets, secrets': Secrets, jobs: Jobs, jobs': Jobs,
    seen: Reads, opaWrites: set<string>, output: Output,
    conditions': Conditions, err: bool, fault: bool, outs: Outcomes, calls: seq<Call>)

  ghost predicate Lawful(p: Pass) {
    && SecretsLegal(p.spec, p.world, p.secrets, p.secrets', p.opaWrites, p.seen, p.output, p.outs, p.err)
    && JobsStep(p.jobs, p.jobs', p.spec.seedHash)
    && CallsLegal(p.spec, p.outs, p.calls)
    && ReadyLegal(p.spec, p.generation, p.world.workloads, p.conditions', p.err)
    && (True(p.conditions', Ready) <==> !p.err && AllUp(p.spec, p.outs))
    && (!p.err && IsUp(p.outs, SampleData) && SeedingEnabled(p.spec) ==> JobDone(p.jobs', p.spec.trinoNs, SampleJob))
    && (!p.err ==> !p.fault)
    && (Smooth(p.spec, p.world, p.secrets, p.catalogClient) ==> !p.err)
    && (Calm(p.spec, p.world, p.secrets, p.jobs, p.catalogClient) ==> True(p.conditions', Ready))
  }

  /** Between passes nobody else touches the operator's Secrets. */
  predicate SecretsLeft(a: Secrets, b: Secrets) {
    forall key | key in a :: key in b && b[key] == a[key]
  }

  /** Between passes Jobs run, fail, finish and vanish; only a finished Job that nobody asked
      to delete stays as it is. */
  predicate JobsLeft(a: Jobs, b: Jobs) {
    forall key | key in a && Succeeded(a[key]) && !a[key].deleting ::
      key in b && Succeeded(b[key]) && !b[key].deleting && b[key].hash == a[key].hash
  }

  ghost predicate Between(p: Pass, q: Pass) {
    SecretsLeft(p.secrets', q.secrets) && JobsLeft(p.jobs', q.jobs)
  }

  ghost predicate IsHistory(h: seq<Pass>) {
    h == [] ||
    var n := |h| - 1;
    IsHistory(h[..n]) && Lawful(h[n]) && (n > 0 ==> Between(h[n - 1], h[n]))
  }

  /** What the environment does before a pass. */
  datatype EnvStep = EnvStep(spec: Spec, generation: int, world: World, secrets: Secrets, jobs: Jobs)

  /** One pass after one step of the environment. */
  method RunPass(dp: DataPlatform, api: Api, step: EnvStep, catalogClient: bool) returns (ghost p: Pass)
    modifies dp, api
    ensures Lawful(p) && p.secrets' == api.secrets && p.jobs' == api.jobs
    ensures SecretsLeft(old(api.secrets), p.secrets) && JobsLeft(old(api.jobs), p.jobs)
  {
    dp.spec, dp.generation := step.spec, step.generation;
    api.world := step.world;
    if SecretsLeft(api.secrets, step.secrets) {
      api.secrets := step.secrets;
    }
    if JobsLeft(api.jobs, step.jobs) {
      api.jobs := step.jobs;
    }
    ghost var secrets, jobs := api.secrets, api.jobs;
    var err;
    ghost var outs;
    err, outs := Reconcile(dp, api, catalogClient);
    p := Pass(dp.spec, dp.generation, api.world, catalogClient, secrets, api.secrets, jobs, api.jobs,
              api.notes.seen, api.notes.opaWrites, api.output, dp.conditions, err, api.fault, outs, api.calls);
  }

  /** The operator, started any number of times on any environment, produces a history. */
  method Run(dp: DataPlatform, api: Api, steps: seq<EnvStep>, catalogClient: bool) returns (ghost h: seq<Pass>)
    modifies dp, api
    ensures IsHistory(h) && |h| == |steps|
  {
    h := [];
    for i := 0 to |steps|
      invariant IsHistory(h) && |h| == i
      invariant i > 0 ==> h[i - 1].secrets' == api.secrets && h[i - 1].jobs' == api.jobs
    {
      ghost var p;
      p := RunPass(dp, api, steps[i], catalogClient);
      assert (h + [p])[..i] == h;
      h := h + [p];
    }
  }

  lemma {:induction false} HistoryAt(h: seq<Pass>, k: nat)
    requires IsHistory(h) && k < |h|
    ensures Lawful(h[k])
    ensures k > 0 ==> Between(h[k - 1], h[k])
  {
    var n := |h| - 1;
    if k < n {
      HistoryAt(h[..n], k);
    }
  }

  // --- Credentials ---

  /** All namespaces in which the run wrote OPA's copy of the credentials. */
  ghost predicate WritesWithin(h: seq<Pass>, opaNamespaces: set<string>) {
    forall k | 0 <= k < |h| :: h[k].opaWrites <= opaNamespaces
  }

  lemma WiderProtects(a: Secrets, b: Secrets, opaWrites: set<string>, opaNamespaces: set<string>)
    requires WriteOnce(a, b, opaWrites) && opaWrites <= opaNamespaces
    ensures WriteOnce(a, b, opaNamespaces)
  {
  }

  /** Credentials are write-once: over any history, a key of a generated Secret never changes
      once it is set. For the OIDC client Secret this holds in every namespace in which no
      pass wrote OPA's copy. */
  lemma {:induction false} CredentialsNeverChange(h: seq<Pass>, opaNamespaces: set<string>, i: nat, j: nat)
    requires IsHistory(h) && i <= j < |h| && WritesWithin(h, opaNamespaces)
    ensures WriteOnce(h[i].secrets, h[j].secrets', opaNamespaces)
    ensures WriteOnce(h[i].secrets', h[j].secrets', opaNamespaces)
    decreases j - i
  {
    HistoryAt(h, i);
    WiderProtects(h[i].secrets, h[i].secrets', h[i].opaWrites, opaNamespaces);
    if i < j {
      CredentialsNeverChange(h, opaNamespaces, i + 1, j);
      HistoryAt(h, i + 1);
      assert WriteOnce(h[i].secrets', h[i + 1].secrets, opaNamespaces);
      WriteOnceTransitive(h[i].secrets', h[i + 1].secrets, h[j].secrets', opaNamespaces);
      WriteOnceTransitive(h[i].secrets, h[i].secrets', h[j].secrets', opaNamespaces);
    }
  }

  /** Trino's credentials, once lost from Keycloak's Secret, never come back. */
  lemma {:induction false} LostStaysLost(h: seq<Pass>, i: nat, j: nat, ns: string)
    requires IsHistory(h) && i <= j < |h|
    ensures Lacks(h[i].secrets, ns) || Lacks(h[i].secrets', ns) ==> Lacks(h[j].secrets', ns)
    ensures i < j && Lacks(h[i].secrets', ns) ==> Lacks(h[j].secrets, ns)
    decreases j - i
  {
    LostInPass(h, i, ns);
    if i < j {
      LostBetween(h, i, ns);
      LostInPass(h, i + 1, ns);
      LostStaysLost(h, i + 1, j, ns);
    }
  }

  lemma {:induction false} LostInPass(h: seq<Pass>, i: nat, ns: string)
    requires IsHistory(h) && i < |h|
    ensures Lacks(h[i].secrets, ns) ==> Lacks(h[i].secrets', ns)
  {
    HistoryAt(h, i);
  }

  lemma {:induction false} LostBetween(h: seq<Pass>, i: nat, ns: string)
    requires IsHistory(h) && i + 1 < |h|
    ensures Lacks(h[i].secrets', ns) ==> Lacks(h[i + 1].secrets, ns)
  {
    HistoryAt(h, i + 1);
  }

  ghost predicate WrittenBetween(h: seq<Pass>, i: nat, j: nat, ns: string)
    requires i <= j < |h|
  {
    exists k :: i <= k <= j && ns in h[k].opaWrites
  }

  /** Exactly when Keycloak's Secret keeps its credentials: every key it holds, Trino's among
      them, is kept from pass i through pass j if and only if none of these passes wrote OPA's
      copy into that namespace. */
  lemma {:induction false} OidcKeptExact(h: seq<Pass>, i: nat, j: nat, ns: string)
    requires IsHistory(h) && i <= j < |h| && Readable(h[i].secrets, (ns, Oidc, TrinoClientSecret))
    ensures (ns, Oidc) in h[j].secrets' && Keeps(h[i].secrets[(ns, Oidc)], h[j].secrets'[(ns, Oidc)])
            <==> !WrittenBetween(h, i, j, ns)
  {
    if k :| i <= k <= j && ns in h[k].opaWrites {
      HistoryAt(h, k);
      LostStaysLost(h, k, j, ns);
    } else {
      KeptUnwritten(h, i, j, ns);
    }
  }

  lemma {:induction false} KeptUnwritten(h: seq<Pass>, i: nat, j: nat, ns: string)
    requires IsHistory(h) && i <= j < |h| && (ns, Oidc) in h[i].secrets && !WrittenBetween(h, i, j, ns)
    ensures (ns, Oidc) in h[j].secrets' && Keeps(h[i].secrets[(ns, Oidc)], h[j].secrets'[(ns, Oidc)])
    decreases j - i
  {
    HistoryAt(h, i);
    assert ns !in h[i].opaWrites && Protected((ns, Oidc), h[i].opaWrites);
    if i < j {
      HistoryAt(h, i + 1);
      assert forall k | i + 1 <= k <= j :: ns !in h[k].opaWrites;
      KeptUnwritten(h, i + 1, j, ns);
    }
  }

  /** The spec asks for OPA: Trino, an identity provider and authorization are all on. */
  predicate WantsOpa(spec: Spec) {
    spec.trino && spec.lakekeeper && spec.auth && spec.authz
  }

  /** Which namespaces are written is decided by the specs: an error-free pass writes exactly
      OpenFGA's, when OPA is wanted, and a failing one at most that. */
  lemma {:induction false} WritesExact(h: seq<Pass>, k: nat)
    requires IsHistory(h) && k < |h|
    ensures forall ns | ns in h[k].opaWrites ::
              WantsOpa(h[k].spec) && ns == h[k].spec.openfgaNs && Lacks(h[k].secrets', ns)
    ensures !h[k].err && WantsOpa(h[k].spec) ==> h[k].spec.openfgaNs in h[k].opaWrites
  {
    HistoryAt(h, k);
    forall ns | ns in h[k].opaWrites
      ensures WantsOpa(h[k].spec) && ns == h[k].spec.openfgaNs
    {
      assert ns in OpaTarget(h[k].spec);
    }
  }

  /** What OPA is given: the Secret next to OpenFGA holds a client id and secret and nothing
      else. With the embedded provider in another namespace they are OPA's own, as Keycloak's
      Secret has them; with an external one they are those of the external client. */
  lemma {:induction false} OpaCopyExact(h: seq<Pass>, k: nat, ns: string)
    requires IsHistory(h) && k < |h| && ns in h[k].opaWrites
    ensures (ns, Oidc) in h[k].secrets' && h[k].secrets'[(ns, Oidc)].Keys == {OpaClientId, OpaClientSecret}
    ensures h[k].spec.authEmbedded && ns != h[k].spec.keycloakNs ==>
              SameClient(h[k].secrets', ns, h[k].spec.keycloakNs)
    ensures !h[k].spec.authEmbedded ==>
              && h[k].secrets'[(ns, Oidc)][OpaClientId] == h[k].world.external.clientId
              && h[k].secrets'[(ns, Oidc)][OpaClientSecret] == h[k].world.external.clientSecret
  {
    HistoryAt(h, k);
    WritesExact(h, k);
    CopyInPass(h[k].spec, h[k].world, h[k].secrets', h[k].opaWrites, h[k].seen, h[k].output, ns);
  }

  lemma CopyInPass(spec: Spec, world: World, secrets: Secrets, opaWrites: set<string>, seen: Reads, output: Output,
                   ns: string)
    requires ReadsHeld(secrets, opaWrites, seen) && CopyHeld(secrets, opaWrites, output.copy)
    requires OutputLegal(spec, world, seen, output)
    requires ns in opaWrites && WantsOpa(spec) && forall n | n in opaWrites :: n == ns
    ensures (ns, Oidc) in secrets && secrets[(ns, Oidc)].Keys == {OpaClientId, OpaClientSecret}
    ensures spec.authEmbedded && ns != spec.keycloakNs ==> SameClient(secrets, ns, spec.keycloakNs)
    ensures !spec.authEmbedded ==>
              && secrets[(ns, Oidc)][OpaClientId] == world.external.clientId
              && secrets[(ns, Oidc)][OpaClientSecret] == world.external.clientSecret
  {
    assert output.copy.Some? && output.copy.value == OpaClientOf(spec, world, seen);
    assert secrets[(ns, Oidc)] == OpaData(output.copy.value.0, output.copy.value.1);
    if spec.authEmbedded && ns != spec.keycloakNs {
      assert Protected((spec.keycloakNs, Oidc), opaWrites);
      assert (spec.keycloakNs, Oidc, OpaClientId) in seen && (spec.keycloakNs, Oidc, OpaClientSecret) in seen;
    }
  }

  /** Both Secrets hold OPA's client, and the same one. */
  predicate SameClient(secrets: Secrets, ns: string, keycloakNs: string) {
    forall f | f in {OpaClientId, OpaClientSecret} ::
      && Readable(secrets, (ns, Oidc, f)) && Readable(secrets, (keycloakNs, Oidc, f))
      && secrets[(ns, Oidc)][f] == secrets[(keycloakNs, Oidc)][f]
  }

  /** And it stays right: until somebody writes OPA's copy into one of the two namespaces, both
      Secrets hold the same client. */
  lemma {:induction false} OpaCopyStays(h: seq<Pass>, k: nat, j: nat, ns: string)
    requires IsHistory(h) && k < j < |h| && ns in h[k].opaWrites
    requires h[k].spec.authEmbedded && ns != h[k].spec.keycloakNs
    requires !WrittenBetween(h, k + 1, j, ns) && !WrittenBetween(h, k + 1, j, h[k].spec.keycloakNs)
    ensures SameClient(h[j].secrets', ns, h[k].spec.keycloakNs)
  {
    var keycloakNs := h[k].spec.keycloakNs;
    OpaCopyExact(h, k, ns);
    SecretKept(h, k, (ns, Oidc));
    SecretKept(h, k, (keycloakNs, Oidc));
    KeptUnwritten(h, k + 1, j, ns);
    KeptUnwritten(h, k + 1, j, keycloakNs);
    SameClientKept(h[k].secrets', h[j].secrets', ns, keycloakNs);
  }

  lemma {:induction false} SecretKept(h: seq<Pass>, k: nat, key: Key)
    requires IsHistory(h) && k + 1 < |h| && key in h[k].secrets'
    ensures key in h[k + 1].secrets && h[k + 1].secrets[key] == h[k].secrets'[key]
  {
    HistoryAt(h, k + 1);
  }

  lemma SameClientKept(a: Secrets, b: Secrets, ns: string, keycloakNs: string)
    requires SameClient(a, ns, keycloakNs)
    requires forall n | n in {ns, keycloakNs} ::
               && (n, Oidc) in a && (n, Oidc) in b
               && Keeps(a[(n, Oidc)], b[(n, Oidc)])
    ensures SameClient(b, ns, keycloakNs)
  {
    forall f | f in {OpaClientId, OpaClientSecret}
      ensures && Readable(b, (ns, Oidc, f)) && Readable(b, (keycloakNs, Oidc, f))
              && b[(ns, Oidc)][f] == b[(keycloakNs, Oidc)][f]
    {
      assert Readable(a, (ns, Oidc, f)) && Readable(a, (keycloakNs, Oidc, f));
    }
  }

  /** Sharing a namespace loses the credentials: every error-free pass whose OPA stage writes
      into Keycloak's namespace leaves Keycloak's Secret without them, so it is not
      write-once. */
  lemma {:induction false} SharedNamespaceLoses(h: seq<Pass>, k: nat)
    requires IsHistory(h) && k < |h| && !h[k].err && WantsOpa(h[k].spec) && h[k].spec.keycloakNs == h[k].spec.openfgaNs
    ensures Lacks(h[k].secrets', h[k].spec.keycloakNs)
    ensures Readable(h[k].secrets, (h[k].spec.keycloakNs, Oidc, TrinoClientSecret)) ==>
              !WriteOnce(h[k].secrets, h[k].secrets', {})
  {
    WritesExact(h, k);
    var key := (h[k].spec.keycloakNs, Oidc);
    assert Protected(key, {});
  }

  /** Sharing a namespace blocks the operator: after one error-free pass that wrote OPA's copy
      over Keycloak's Secret, every later pass with the identity provider there fails. */
  lemma {:induction false} SharedNamespaceBlocks(h: seq<Pass>, i: nat, j: nat)
    requires IsHistory(h) && i < j < |h|
    requires !h[i].err && WantsOpa(h[i].spec) && h[j].spec.keycloakNs == h[i].spec.openfgaNs
    requires h[j].spec.lakekeeper && h[j].spec.auth && h[j].spec.authEmbedded
    ensures h[j].err && !True(h[j].conditions', Ready)
  {
    WritesExact(h, i);
    LostStaysLost(h, i, j, h[j].spec.keycloakNs);
    HistoryAt(h, j);
  }

  // --- Passes that have to succeed ---

  /** Every protected Secret holds what its readers need. */
  ghost predicate AllWhole(secrets: Secrets, opaNamespaces: set<string>) {
    forall key {:trigger WholeIfThere(secrets, key)} | Protected(key, opaNamespaces) :: WholeIfThere(secrets, key)
  }

  lemma {:induction false} WholeStays(h: seq<Pass>, opaNamespaces: set<string>, i: nat, j: nat)
    requires IsHistory(h) && i <= j < |h| && WritesWithin(h, opaNamespaces) && AllWhole(h[i].secrets, opaNamespaces)
    requires NothingAdded(h, i, j)
    ensures AllWhole(h[j].secrets, opaNamespaces) && AllWhole(h[j].secrets', opaNamespaces)
  {
    forall m | 0 <= m < |h|
      ensures WholeKept(h, opaNamespaces, m)
    {
      if AllWhole(h[m].secrets, opaNamespaces) {
        WholeAfter(h, opaNamespaces, m);
      }
      if m > 0 && h[m].secrets.Keys <= h[m - 1].secrets'.Keys && AllWhole(h[m - 1].secrets', opaNamespaces) {
        WholeBetween(h, opaNamespaces, m - 1);
      }
    }
    WholeChain(h, opaNamespaces, i, j);
  }

  /** Pass m keeps Secrets whole, and so does what happens before it if nobody adds one. */
  ghost predicate WholeKept(h: seq<Pass>, opaNamespaces: set<string>, m: nat)
    requires m < |h|
  {
    && (AllWhole(h[m].secrets, opaNamespaces) ==> AllWhole(h[m].secrets', opaNamespaces))
    && (m > 0 && h[m].secrets.Keys <= h[m - 1].secrets'.Keys && AllWhole(h[m - 1].secrets', opaNamespaces) ==>
          AllWhole(h[m].secrets, opaNamespaces))
  }

  lemma {:induction false} WholeChain(h: seq<Pass>, opaNamespaces: set<string>, i: nat, j: nat)
    requires i <= j < |h| && AllWhole(h[i].secrets, opaNamespaces) && NothingAdded(h, i, j)
    requires forall m | 0 <= m < |h| :: WholeKept(h, opaNamespaces, m)
    ensures AllWhole(h[j].secrets, opaNamespaces) && AllWhole(h[j].secrets', opaNamespaces)
    decreases j
  {
    if i < j {
      WholeChain(h, opaNamespaces, i, j - 1);
      assert h[j].secrets.Keys <= h[j - 1].secrets'.Keys;
    }
    assert WholeKept(h, opaNamespaces, j);
  }

  lemma {:induction false} WholeAfter(h: seq<Pass>, opaNamespaces: set<string>, j: nat)
    requires IsHistory(h) && j < |h| && h[j].opaWrites <= opaNamespaces && AllWhole(h[j].secrets, opaNamespaces)
    ensures AllWhole(h[j].secrets', opaNamespaces)
  {
    HistoryAt(h, j);
    WholeInPass(h[j].secrets, h[j].secrets', h[j].opaWrites, opaNamespaces);
  }

  lemma {:induction false} WholeBetween(h: seq<Pass>, opaNamespaces: set<string>, j: nat)
    requires IsHistory(h) && j + 1 < |h| && h[j + 1].secrets.Keys <= h[j].secrets'.Keys
    requires AllWhole(h[j].secrets', opaNamespaces)
    ensures AllWhole(h[j + 1].secrets, opaNamespaces)
  {
    HistoryAt(h, j + 1);
    var a, b := h[j].secrets', h[j + 1].secrets;
    forall key | Protected(key, opaNamespaces)
      ensures WholeIfThere(b, key)
    {
      assert WholeIfThere(a, key) && (key in b ==> key in b.Keys);
    }
  }

  /** Nobody else creates Secrets between passes i and j. */
  ghost predicate NothingAdded(h: seq<Pass>, i: nat, j: nat)
    requires i <= j < |h|
  {
    forall k | i <= k < j :: h[k + 1].secrets.Keys <= h[k].secrets'.Keys
  }

  lemma WholeInPass(a: Secrets, b: Secrets, opaWrites: set<string>, opaNamespaces: set<string>)
    requires WriteOnce(a, b, opaWrites) && NewWhole(a, b, opaWrites) && opaWrites <= opaNamespaces
    requires AllWhole(a, opaNamespaces)
    ensures AllWhole(b, opaNamespaces)
  {
    forall key | Protected(key, opaNamespaces)
      ensures WholeIfThere(b, key)
    {
      assert Protected(key, opaWrites) && WholeIfThere(a, key);
    }
  }

  lemma WholeForSpec(spec: Spec, secrets: Secrets, opaNamespaces: set<string>)
    requires AllWhole(secrets, opaNamespaces) && (Embedded(spec) ==> spec.keycloakNs !in opaNamespaces)
    ensures WholeSecrets(spec, secrets)
  {
    assert Embedded(spec) ==> WholeIfThere(secrets, (spec.keycloakNs, Oidc));
    forall key | key in secrets && Generated(key.1)
      ensures FieldsOf(key.1) <= secrets[key].Keys
    {
      assert WholeIfThere(secrets, key);
    }
  }

  /** The operator never gets stuck: from whole Secrets on, or none, every pass succeeds that
      finds its requests answered and its workloads there, under a supported spec and with
      Keycloak where no pass wrote OPA's copy; and it is Ready if the workloads are and the
      Jobs are done. */
  lemma {:induction false} SmoothPassesSucceed(h: seq<Pass>, opaNamespaces: set<string>, i: nat, j: nat)
    requires IsHistory(h) && i <= j < |h| && WritesWithin(h, opaNamespaces)
    requires AllWhole(h[i].secrets, opaNamespaces) && NothingAdded(h, i, j)
    requires h[j].spec.lakekeeper && h[j].spec.auth && h[j].spec.authEmbedded ==> h[j].spec.keycloakNs !in opaNamespaces
    requires h[j].spec.lakekeeper && h[j].spec.authz ==> h[j].spec.authzEmbedded
    requires h[j].world.healthy && h[j].catalogClient && forall c :: PresentFor(h[j].spec, h[j].world.workloads, c)
    ensures !h[j].err
    ensures (forall c :: ServingFor(h[j].spec, h[j].world.workloads, c)) && JobsAllDone(h[j].spec, h[j].jobs) ==>
              True(h[j].conditions', Ready)
  {
    WholeStays(h, opaNamespaces, i, j);
    HistoryAt(h, j);
    WholeForSpec(h[j].spec, h[j].secrets, opaNamespaces);
  }

  /** No error is swallowed: if any request of a pass failed, the pass ends with an error and
      Ready is False. */
  lemma {:induction false} NoErrorSwallowed(h: seq<Pass>, k: nat)
    requires IsHistory(h) && k < |h| && h[k].fault
    ensures h[k].err && !True(h[k].conditions', Ready)
  {
    HistoryAt(h, k);
  }

  // --- What a Ready platform has ---

  /** With everything on and embedded, Ready means that every generated Secret is there, and
      that the realm and Superset's configuration were hashed. */
  lemma {:induction false} ReadyProvides(h: seq<Pass>, k: nat)
    requires IsHistory(h) && k < |h| && True(h[k].conditions', Ready)
    ensures HasSecrets(h[k].spec, h[k].secrets', h[k].output)
  {
    HistoryAt(h, k);
    UpProvides(h[k].spec, h[k].outs, h[k].secrets', h[k].output);
  }

  ghost predicate HasSecrets(spec: Spec, secrets: Secrets, output: Output) {
    && (spec.lakekeeper ==> (spec.lakekeeperNs, EncryptionKey) in secrets)
    && (spec.lakekeeper && spec.postgresEmbedded ==> (spec.lakekeeperNs, PostgresLogin) in secrets)
    && (spec.lakekeeper && spec.storageEmbedded ==> (spec.minioNs, MinioKeys) in secrets)
    && (spec.lakekeeper && spec.auth && spec.authEmbedded ==>
          && (spec.keycloakNs, RealmKey) in secrets && (spec.keycloakNs, KeycloakAdmin) in secrets
          && (spec.keycloakNs, Oidc) in secrets && output.realm.Some?)
    && (spec.lakekeeper && spec.authz ==>
          (spec.openfgaNs, OpenFGAKey) in secrets && (spec.openfgaNs, PostgresLogin) in secrets)
    && (spec.superset ==>
          && (spec.supersetNs, PostgresLogin) in secrets && (spec.supersetNs, SupersetKey) in secrets
          && output.superset.Some?)
  }

  lemma UpProvides(spec: Spec, outs: Outcomes, secrets: Secrets, output: Output)
    requires Provided(spec, outs, secrets, output) && AllUp(spec, outs)
    ensures HasSecrets(spec, secrets, output)
  {
    assert Superset in outs && (spec.lakekeeper ==> Postgres in outs && Minio in outs && Auth in outs);
    assert spec.lakekeeper ==> OpenFGA in outs && Lakekeeper in outs;
  }

  /** Trino runs on what was hashed: whenever the Trino stage did not fail, its two Secrets
      hold the configuration and the catalog files of this pass. */
  lemma {:induction false} TrinoStored(h: seq<Pass>, k: nat)
    requires IsHistory(h) && k < |h| && h[k].spec.trino && Reached(h[k].outs, Trino)
    ensures h[k].output.trino.Some? && RunsOn(h[k].secrets', h[k].spec.trinoNs, h[k].output.trino.value)
  {
    HistoryAt(h, k);
    StoredInPass(h[k].spec, h[k].outs, h[k].secrets', h[k].output);
    ConfigHeld(h[k].secrets', h[k].spec.trinoNs, h[k].output.trino.value);
  }

  /** Coordinator, workers and access control, when there is any, under their keys, and all
      catalog files. */
  ghost predicate RunsOn(secrets: Secrets, ns: string, trino: TrinoOutput) {
    && (ns, TrinoConfig) in secrets && (ns, TrinoCatalog) in secrets && secrets[(ns, TrinoCatalog)] == trino.files
    && var config, texts := secrets[(ns, TrinoConfig)], trino.texts;
       && CoordinatorConfig in config && config[CoordinatorConfig] == texts.coordinator
       && WorkerConfig in config && config[WorkerConfig] == texts.worker
       && (AccessControlConfig in config <==> texts.accessControl != "")
       && (texts.accessControl != "" ==> config[AccessControlConfig] == texts.accessControl)
  }

  lemma ConfigHeld(secrets: Secrets, ns: string, trino: TrinoOutput)
    requires Stores(secrets, StoredAs(ns, trino))
    ensures RunsOn(secrets, ns, trino)
  {
  }

  lemma StoredInPass(spec: Spec, outs: Outcomes, secrets: Secrets, output: Output)
    requires Provided(spec, outs, secrets, output) && spec.trino && Reached(outs, Trino)
    ensures output.trino.Some? && Stores(secrets, StoredAs(spec.trinoNs, output.trino.value))
  {
    assert Trino in outs;
  }

  /** Two passes that read one protected credential read the same value. */
  lemma {:induction false} SameCredentialLater(h: seq<Pass>, opaNamespaces: set<string>, i: nat, j: nat, c: Credential)
    requires IsHistory(h) && i <= j < |h| && WritesWithin(h, opaNamespaces)
    requires Protected((c.0, c.1), opaNamespaces) && c in h[i].seen && c in h[j].seen
    ensures h[j].seen[c] == h[i].seen[c]
  {
    HistoryAt(h, i);
    HistoryAt(h, j);
    CredentialsNeverChange(h, opaNamespaces, i, j);
    assert Protected((c.0, c.1), h[i].opaWrites) && Protected((c.0, c.1), h[j].opaWrites);
  }

  // --- Jobs ---

  /** A Job that has succeeded is never deleted or recreated by the operator: it is still
      there, done, with the seed it was created for, after every later pass. */
  lemma {:induction false} DoneStaysDone(h: seq<Pass>, i: nat, j: nat, ns: string, name: JobName)
    requires IsHistory(h) && i <= j < |h|
    requires JobDone(h[i].jobs, ns, name)
    ensures JobDone(h[j].jobs', ns, name) && h[j].jobs'[(ns, name)].hash == h[i].jobs[(ns, name)].hash
    decreases j - i
  {
    DoneAfterPass(h, i, ns, name);
    if i < j {
      HistoryAt(h, i + 1);
      DoneStaysDone(h, i + 1, j, ns, name);
    }
  }

  lemma {:induction false} DoneAfterPass(h: seq<Pass>, i: nat, ns: string, name: JobName)
    requires IsHistory(h) && i < |h| && JobDone(h[i].jobs, ns, name)
    ensures JobDone(h[i].jobs', ns, name) && h[i].jobs'[(ns, name)] == h[i].jobs[(ns, name)]
  {
    HistoryAt(h, i);
  }

  /** A pass deletes a Job only if, when it was read, it had not finished, and had failed, was the
      seed Job of another seed, or a bucket Job that cannot write its config. One that failed
      before it was read has not succeeded since. */
  lemma {:induction false} DeletionsJustified(h: seq<Pass>, k: nat, key: JobKey) returns (r: Job)
    requires IsHistory(h) && k < |h| && key in h[k].jobs && !h[k].jobs[key].deleting
    ensures key in h[k].jobs'
    ensures h[k].jobs'[key].deleting ==>
              && Moves(h[k].jobs[key], r) && Moves(r, h[k].jobs'[key])
              && !r.deleting && !r.complete && r.succeeded == 0
              && (r.failed || if key.1 == SampleJob then r.hash != h[k].spec.seedHash else !r.writableConfig)
              && (r.failed ==> !Succeeded(h[k].jobs'[key]))
  {
    HistoryAt(h, k);
    r := h[k].jobs[key];
    if h[k].jobs'[key].deleting {
      r :| DeletedAs(key.1, h[k].jobs[key], r, h[k].jobs'[key], h[k].spec.seedHash);
    }
  }

  /** A pass that fails right away. */
  ghost function FailedPass(spec: Spec, secrets: Secrets, jobs: Jobs, jobs': Jobs): Pass {
    Pass(spec, 0, World(map[], External("", "", "", "", "", ""), false), false, secrets, secrets, jobs, jobs',
         map[], {}, NOTHING, map[Ready := Condition(false, 0)], true, true, map[], [])
  }

  lemma FailedPassLawful(spec: Spec, secrets: Secrets, jobs: Jobs, jobs': Jobs)
    requires JobsStep(jobs, jobs', spec.seedHash)
    ensures Lawful(FailedPass(spec, secrets, jobs, jobs'))
  {
    assert CallsSplit(spec, map[], [], [], [], [], "", false);
    assert ProvidedWith(spec, map[], secrets, NOTHING, None);
  }

  /** "Never deletes a succeeded Job" is false, exactly for these Jobs: a pass that finds key
      among its Jobs can end with it deleted although it has succeeded, if and only if it had
      neither finished nor failed when the pass began, and is the seed Job of another seed or a
      bucket Job that cannot write its config. */
  lemma {:induction false} SucceededJobDeletedExact(spec: Spec, secrets: Secrets, jobs: Jobs, key: JobKey)
    requires key in jobs && !jobs[key].deleting
    ensures (exists p :: Lawful(p) && p.spec == spec && p.secrets == secrets && p.jobs == jobs
                         && key in p.jobs' && p.jobs'[key].deleting && Succeeded(p.jobs'[key]))
            <==> && !jobs[key].complete && jobs[key].succeeded == 0 && !jobs[key].failed
                 && if key.1 == SampleJob then jobs[key].hash != spec.seedHash else !jobs[key].writableConfig
  {
    SucceededDeletedExact(key.1, jobs[key], spec.seedHash);
    if b :| JobStep(key.1, jobs[key], b, spec.seedHash) && b.deleting && Succeeded(b) {
      OneJobStep(jobs, key, b, spec.seedHash);
      FailedPassLawful(spec, secrets, jobs, jobs[key := b]);
    }
  }

  /** Nobody else creates the operator's Jobs or changes the seed they were created for. */
  ghost predicate OnlyOperator(h: seq<Pass>) {
    forall k, key | 0 < k < |h| && key in h[k].jobs ::
      key in h[k - 1].jobs' && h[k].jobs[key].hash == h[k - 1].jobs'[key].hash
  }

  /** The Job was created in pass k and has been there ever since. */
  ghost predicate CreatedIn(h: seq<Pass>, k: nat, j: nat, key: JobKey)
    requires k <= j < |h|
  {
    key !in h[k].jobs && forall m | k <= m <= j :: key in h[m].jobs'
  }

  /** A Job that was not there before pass i carries the seed of the pass that created it. */
  lemma {:induction false} SeedOrigin(h: seq<Pass>, i: nat, j: nat, key: JobKey) returns (k: nat)
    requires IsHistory(h) && OnlyOperator(h) && i <= j < |h| && key !in h[i].jobs && key in h[j].jobs'
    ensures i <= k <= j && CreatedIn(h, k, j, key) && h[j].jobs'[key].hash == h[k].spec.seedHash
  {
    forall m | 0 <= m < |h| && key in h[m].jobs'
      ensures SeedKept(h[m], key)
    {
      SeedInPass(h, m, key);
    }
    k := Creation(h, i, j, key);
  }

  /** A pass keeps the seed of a Job that was there and gives a new one its own. */
  predicate SeedKept(p: Pass, key: JobKey)
    requires key in p.jobs'
  {
    p.jobs'[key].hash == if key in p.jobs then p.jobs[key].hash else p.spec.seedHash
  }

  lemma {:induction false} Creation(h: seq<Pass>, i: nat, j: nat, key: JobKey) returns (k: nat)
    requires OnlyOperator(h) && i <= j < |h| && key !in h[i].jobs && key in h[j].jobs'
    requires forall m | 0 <= m < |h| && key in h[m].jobs' :: SeedKept(h[m], key)
    ensures i <= k <= j && CreatedIn(h, k, j, key) && h[j].jobs'[key].hash == h[k].spec.seedHash
    decreases j
  {
    k := j;
    if key in h[j].jobs {
      SeedBefore(h, j, key);
      k := Creation(h, i, j - 1, key);
      StillThere(h, k, j, key);
    }
  }

  lemma {:induction false} SeedBefore(h: seq<Pass>, j: nat, key: JobKey)
    requires OnlyOperator(h) && 0 < j < |h| && key in h[j].jobs
    ensures key in h[j - 1].jobs' && h[j].jobs[key].hash == h[j - 1].jobs'[key].hash
  {
  }

  lemma {:induction false} StillThere(h: seq<Pass>, k: nat, j: nat, key: JobKey)
    requires k < j < |h| && CreatedIn(h, k, j - 1, key) && key in h[j].jobs'
    ensures CreatedIn(h, k, j, key)
  {
  }

  lemma {:induction false} SeedInPass(h: seq<Pass>, j: nat, key: JobKey)
    requires IsHistory(h) && j < |h| && key in h[j].jobs'
    ensures SeedKept(h[j], key)
  {
    HistoryAt(h, j);
  }

  /** When sample data that is reported ready rests on the current seed: exactly when the
      seed is that of the pass that created the Job; so always while the seed has not
      changed. */
  lemma {:induction false} SampleDataCurrent(h: seq<Pass>, i: nat, j: nat) returns (k: nat)
    requires IsHistory(h) && OnlyOperator(h) && i <= j < |h|
    requires !h[j].err && IsUp(h[j].outs, SampleData) && SeedingEnabled(h[j].spec)
    requires (h[j].spec.trinoNs, SampleJob) !in h[i].jobs
    ensures var key := (h[j].spec.trinoNs, SampleJob);
            && i <= k <= j && JobDone(h[j].jobs', key.0, SampleJob) && CreatedIn(h, k, j, key)
            && (h[j].jobs'[key].hash == h[j].spec.seedHash <==> h[k].spec.seedHash == h[j].spec.seedHash)
  {
    HistoryAt(h, j);
    k := SeedOrigin(h, i, j, (h[j].spec.trinoNs, SampleJob));
  }

  // --- Remote calls ---

  predicate CatalogCall(c: Call) {
    !c.EnsureStore? && !c.ApplyLakekeeper?
  }

  /** Over whole runs, catalog calls are made only in passes that found Postgres, object
      store, identity, OpenFGA and LakeKeeper ready, and grants, roles and tuples only under
      a spec with the embedded provider; LakeKeeper is applied only behind a ready identity
      provider and OpenFGA. */
  lemma {:induction false} CallsGuarded(h: seq<Pass>, k: nat, c: Call)
    requires IsHistory(h) && k < |h| && c in h[k].calls
    ensures CatalogCall(c) ==> GatesUp(h[k].outs)
    ensures c.Grants? || c.Roles? || c.Tuples? ==> Embedded(h[k].spec)
    ensures c.ApplyLakekeeper? ==> IsUp(h[k].outs, Auth) && IsUp(h[k].outs, OpenFGA)
  {
    HistoryAt(h, k);
    GuardedCall(h[k].spec, h[k].outs, h[k].calls, c);
  }

  lemma {:induction false} GuardedCall(spec: Spec, outs: Outcomes, calls: seq<Call>, c: Call)
    requires CallsLegal(spec, outs, calls) && c in calls
    ensures CatalogCall(c) ==> GatesUp(outs)
    ensures c.Grants? || c.Roles? || c.Tuples? ==> Embedded(spec)
    ensures c.ApplyLakekeeper? ==> IsUp(outs, Auth) && IsUp(outs, OpenFGA)
  {
    var store, lake, catalog, id, members :| CallsSplit(spec, outs, calls, store, lake, catalog, id, members);
    assert c in store || c in lake || c in catalog;
    if c in catalog {
      PlanIsCatalog(Embedded(spec), id, members, catalog, c);
    }
  }

  lemma {:induction false} PlanIsCatalog(embedded: bool, id: string, members: bool, catalog: seq<Call>, c: Call)
    requires catalog <= Plan(embedded, id, members) && c in catalog
    ensures CatalogCall(c) && (c.Grants? || c.Roles? || c.Tuples? ==> embedded)
  {
    var i :| 0 <= i < |catalog| && catalog[i] == c;
    assert Plan(embedded, id, members)[i] == c;
  }

  /** With LakeKeeper enabled, a pass in which the warehouse became ready has bootstrapped
      LakeKeeper and ensured the warehouse, and has granted and assigned roles if and only if
      the provider is the embedded one. */
  lemma {:induction false} WarehouseUpCalls(h: seq<Pass>, k: nat)
    requires IsHistory(h) && k < |h| && h[k].spec.lakekeeper && IsUp(h[k].outs, WarehouseReady)
    ensures ApplyLakekeeper in h[k].calls && Bootstrap in h[k].calls && Warehouse in h[k].calls
    ensures Grants in h[k].calls <==> Embedded(h[k].spec)
    ensures Roles in h[k].calls <==> Embedded(h[k].spec)
  {
    HistoryAt(h, k);
    CallsWhenUp(h[k].spec, h[k].outs, h[k].calls);
  }

  lemma {:induction false} CallsWhenUp(spec: Spec, outs: Outcomes, calls: seq<Call>)
    requires CallsLegal(spec, outs, calls) && spec.lakekeeper && IsUp(outs, WarehouseReady)
    ensures ApplyLakekeeper in calls && Bootstrap in calls && Warehouse in calls
    ensures (Grants in calls <==> Embedded(spec)) && (Roles in calls <==> Embedded(spec))
  {
    var store, lake, catalog, id, members :| CallsSplit(spec, outs, calls, store, lake, catalog, id, members);
    WholePlan(Embedded(spec), id, members);
    assert catalog == Plan(Embedded(spec), id, members);
    if Grants in calls {
      GuardedCall(spec, outs, calls, Grants);
    }
    if Roles in calls {
      GuardedCall(spec, outs, calls, Roles);
    }
  }

  lemma WholePlan(embedded: bool, id: string, members: bool)
    ensures var plan := Plan(embedded, id, members);
            Bootstrap in plan && Warehouse in plan && (embedded ==> Grants in plan && Roles in plan)
  {
  }

  /** A pass that writes membership tuples into a store obtained that store itself, and made
      exactly these calls in exactly this order. */
  lemma {:induction false} TupleWritingPass(h: seq<Pass>, k: nat, id: string)
    requires IsHistory(h) && k < |h| && Tuples(id) in h[k].calls
    ensures h[k].calls == [EnsureStore(id), ApplyLakekeeper, Bootstrap, Grants, Warehouse, Roles, Tuples(id)]
    ensures GatesUp(h[k].outs) && Embedded(h[k].spec)
  {
    HistoryAt(h, k);
    TupleCalls(h[k].spec, h[k].outs, h[k].calls, id);
  }

  lemma {:induction false} TupleCalls(spec: Spec, outs: Outcomes, calls: seq<Call>, id: string)
    requires CallsLegal(spec, outs, calls) && Tuples(id) in calls
    ensures calls == [EnsureStore(id), ApplyLakekeeper, Bootstrap, Grants, Warehouse, Roles, Tuples(id)]
    ensures GatesUp(outs) && Embedded(spec)
  {
    var store, lake, catalog, storeId, members :|
      CallsSplit(spec, outs, calls, store, lake, catalog, storeId, members);
    InCatalog(store, lake, catalog, id);
    TuplesEndThePlan(Embedded(spec), storeId, members, catalog, id);
    assert store == [EnsureStore(id)] && lake == [ApplyLakekeeper];
  }

  lemma {:induction false} InCatalog(store: seq<Call>, lake: seq<Call>, catalog: seq<Call>, id: string)
    requires Tuples(id) in store + lake + catalog
    requires store == [] || (|store| == 1 && store[0].EnsureStore?)
    requires lake == [] || lake == [ApplyLakekeeper]
    ensures Tuples(id) in catalog
  {
    assert Tuples(id) !in store && Tuples(id) !in lake;
  }

  lemma {:induction false} TuplesEndThePlan(embedded: bool, storeId: string, members: bool, catalog: seq<Call>,
                                            id: string)
    requires catalog <= Plan(embedded, storeId, members) && Tuples(id) in catalog
    ensures embedded && storeId == id && id != ""
    ensures catalog == [Bootstrap, Grants, Warehouse, Roles, Tuples(id)]
  {
    var i :| 0 <= i < |catalog| && catalog[i] == Tuples(id);
    assert Plan(embedded, storeId, members)[i] == Tuples(id);
    if embedded && storeId != "" && members {
      assert Plan(embedded, storeId, members) == [Bootstrap, Grants, Warehouse, Roles, Tuples(storeId)];
    }
  }
}

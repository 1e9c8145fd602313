/** One reconcile pass, stage by stage. Every stage sets its own status condition from what
    the cluster answers; conditions of stages that are not reached keep whatever an earlier
    pass left there. */
module Reconciler {
  import opened Wrappers
  import opened Cluster
  import opened Platform
  import opened Catalog
  import opened TrinoStack
  import opened SupersetStack
  import opened Seeding

  ghost predicate TailReached(outs: Outcomes) {
    Reached(outs, Trino) && Reached(outs, Superset) && Reached(outs, SampleData)
  }

  ghost predicate TailUp(outs: Outcomes) {
    IsUp(outs, Trino) && IsUp(outs, Superset) && IsUp(outs, SampleData)
  }

  /** Which stages an error-free pass reaches. */
  ghost predicate PassLegal(spec: Spec, outs: Outcomes) {
    && TailReached(outs)
    && (spec.lakekeeper ==>
          && FoundationsReached(outs) && Reached(outs, Lakekeeper)
          && (WarehouseReady in outs <==> GatesUp(outs)))
    && (!spec.lakekeeper ==> DisabledLegal(spec, outs))
  }

  ghost predicate AllUp(spec: Spec, outs: Outcomes) {
    && (spec.lakekeeper ==> GatesUp(outs) && IsUp(outs, WarehouseReady))
    && IsUp(outs, Trino) && IsUp(outs, Superset) && IsUp(outs, SampleData)
  }

  /** The conditions Ready stands for: all nine, or, with LakeKeeper disabled, all but the
      identity provider's. */
  ghost function Required(spec: Spec): set<Cond> {
    {Postgres, Minio, OpenFGA, Lakekeeper, WarehouseReady, Trino, Superset, SampleData}
    + (if spec.lakekeeper then {Auth} else {})
  }

  ghost predicate AllTrue(spec: Spec, conditions: Conditions) {
    forall c | c in Required(spec) :: True(conditions, c)
  }

  ghost predicate AllCurrent(spec: Spec, conditions: Conditions, generation: int) {
    forall c | c in Required(spec) :: c in conditions && conditions[c].generation == generation
  }

  lemma WrittenStatus(conditions0: Conditions, outs: Outcomes, generation: int, c: Cond)
    requires c in outs
    ensures var conditions := conditions0 + Written(outs, generation);
            c in conditions && conditions[c] == Condition(outs[c].Up?, generation)
  {
  }

  /** Ready is exact whatever conditions earlier passes left behind: after an error-free pass
      all stages were up if and only if all required conditions are True, and then every one
      of them was written by this pass for the current generation. */
  lemma ReadyExact(spec: Spec, conditions0: Conditions, outs: Outcomes, generation: int)
    requires PassLegal(spec, outs)
    ensures var conditions := conditions0 + Written(outs, generation);
            && (AllUp(spec, outs) <==> AllTrue(spec, conditions))
            && (AllUp(spec, outs) ==> AllCurrent(spec, conditions, generation))
  {
    var conditions := conditions0 + Written(outs, generation);
    forall c | c in outs
      ensures c in conditions && conditions[c] == Condition(outs[c].Up?, generation)
    {
      WrittenStatus(conditions0, outs, generation, c);
    }
    if AllTrue(spec, conditions) {
      assert True(conditions, Trino) && True(conditions, Superset) && True(conditions, SampleData);
      if spec.lakekeeper {
        assert True(conditions, Postgres) && True(conditions, Minio) && True(conditions, Auth);
        assert True(conditions, OpenFGA) && True(conditions, Lakekeeper) && True(conditions, WarehouseReady);
      }
    }
  }

  method ReconcileTail(dp: DataPlatform, api: Api, oidc: OidcConfig, fga: FgaConfig, store: ObjectStore)
    returns (err: bool, progressing: bool)
    requires InHead(dp, api) && Ruled(dp, api)
    requires Resolved(dp.spec, api.world, api.notes.seen, oidc, fga, store)
    requires SeedReady(dp.spec, oidc, api.notes)
    requires dp.pass.calm && SeedingEnabled(dp.spec) ==> WarehouseReady in dp.reached.outs
    modifies dp`conditions, dp`reached, api`fault, api`mark, api`secrets, api`jobs, api`notes, api`output
    ensures InPass(dp, api) && Since(old(api.notes), api.notes)
    ensures api.notes.opaWrites <= OpaTarget(dp.spec) && (!err ==> api.notes.opaWrites == OpaTarget(dp.spec))
    ensures SameBefore(old(dp.reached.outs), dp.reached.outs)
    ensures !err ==> TailReached(dp.reached.outs)
    ensures !err ==> (progressing <==> !TailUp(dp.reached.outs))
    ensures !err && IsUp(dp.reached.outs, SampleData) && SeedingEnabled(dp.spec) ==>
              JobDone(api.jobs, dp.spec.trinoNs, SampleJob)
    ensures api.start.smooth ==> !err
    ensures !err ==> api.fault == old(api.fault)
  {
    progressing := false;
    err := ReconcileTrinoStack(dp, api, oidc, fga, store);
    if err {
      return;
    }
    var trinoReady := dp.ConditionTrue(Trino);
    err, progressing := ReconcileClients(dp, api, oidc);
    progressing := !trinoReady || progressing;
  }

  /** Superset, then the sample data. */
  method ReconcileClients(dp: DataPlatform, api: Api, oidc: OidcConfig) returns (err: bool, progressing: bool)
    requires InPass(dp, api) && Ruled(dp, api) && SeedReady(dp.spec, oidc, api.notes)
    requires dp.pass.calm && SeedingEnabled(dp.spec) ==> WarehouseReady in dp.reached.outs && Trino in dp.reached.outs
    modifies dp`conditions, dp`reached, api`fault, api`mark, api`secrets, api`jobs, api`notes, api`output
    ensures InPass(dp, api) && Later(old(api.notes), api.notes)
    ensures ClientsLegal(old(dp.reached.outs), dp.reached.outs, err, progressing)
    ensures !err && IsUp(dp.reached.outs, SampleData) && SeedingEnabled(dp.spec) ==>
              JobDone(api.jobs, dp.spec.trinoNs, SampleJob)
    ensures api.start.smooth ==> !err
    ensures !err ==> api.fault == old(api.fault)
  {
    progressing := false;
    err := ReconcileSupersetStack(dp, api, oidc);
    if err {
      return;
    }
    ghost var outs := dp.reached.outs;
    var supersetReady := dp.ConditionTrue(Superset);
    var o := ReconcileSampleData(dp, api, oidc);
    ClientOutcomes(old(dp.reached.outs), outs, o);
    err := o.Failed?;
    progressing := !supersetReady || o.Waiting?;
  }

  ghost predicate ClientsLegal(outs: Outcomes, outs': Outcomes, err: bool, progressing: bool) {
    && (forall c | c != Superset && c != SampleData ::
          (c in outs <==> c in outs') && (c in outs' ==> outs'[c] == outs[c]))
    && (!err ==> Reached(outs', Superset) && Reached(outs', SampleData))
    && (!err ==> (progressing <==> !(IsUp(outs', Superset) && IsUp(outs', SampleData))))
  }

  lemma ClientOutcomes(outs: Outcomes, outs': Outcomes, o: Outcome)
    requires Touched(outs, outs', Superset) && Reached(outs', Superset)
    ensures ClientsLegal(outs, outs'[SampleData := o], o.Failed?, !outs'[Superset].Up? || o.Waiting?)
    ensures IsUp(outs'[SampleData := o], SampleData) ==> o.Up?
  {
  }

  ghost predicate SameBefore(outs: Outcomes, outs': Outcomes) {
    forall c | c != Trino && c != Superset && c != SampleData ::
      (c in outs <==> c in outs') && (c in outs ==> outs[c] == outs'[c])
  }

  lemma {:induction false} HeadKept(spec: Spec, outs: Outcomes, outs': Outcomes, calls: seq<Call>)
    requires SameBefore(outs, outs')
    ensures GatesUp(outs) <==> GatesUp(outs')
    ensures FoundationsReached(outs) <==> FoundationsReached(outs')
    ensures CallsLegal(spec, outs, calls) ==> CallsLegal(spec, outs', calls)
  {
    if CallsLegal(spec, outs, calls) {
      var store, lake, catalog, id, members :| CallsSplit(spec, outs, calls, store, lake, catalog, id, members);
      assert CallsSplit(spec, outs', calls, store, lake, catalog, id, members);
    }
  }

  /** With LakeKeeper disabled a pass makes no remote call. */
  lemma NoCalls(spec: Spec, outs: Outcomes)
    requires !spec.lakekeeper
    ensures CallsLegal(spec, outs, [])
  {
    assert CallsSplit(spec, outs, [], [], [], [], "", false);
  }

  /** How the stages before Trino end. */
  ghost predicate HeadLegal(spec: Spec, outs: Outcomes, err: bool, progressing: bool) {
    if spec.lakekeeper then StackLegal(outs, err, progressing)
    else DisabledLegal(spec, outs) && !err && !progressing
  }

  /** Everything before Trino. */
  method ReconcileHead(dp: DataPlatform, api: Api, catalogClient: bool)
    returns (err: bool, progressing: bool, oidc: OidcConfig, fga: FgaConfig, store: ObjectStore)
    requires InHead(dp, api) && Ruled(dp, api) && dp.reached.outs == map[] && api.calls == []
    requires api.jobs == api.start.jobs
    requires api.start.smooth ==> catalogClient
    modifies dp`conditions, dp`reached, api`fault, api`mark, api`secrets, api`jobs, api`calls, api`notes, api`output
    ensures InHead(dp, api) && CallsLegal(dp.spec, dp.reached.outs, api.calls)
    ensures !err ==> Resolved(dp.spec, api.world, api.notes.seen, oidc, fga, store)
    ensures HeadLegal(dp.spec, dp.reached.outs, err, progressing)
    ensures api.start.smooth ==> !err
    ensures !err ==> api.fault == old(api.fault)
  {
    if dp.spec.lakekeeper {
      err, progressing, oidc, fga, store := ReconcileLakekeeperStack(dp, api, catalogClient);
    } else {
      LakekeeperDisabled(dp);
      err, progressing, oidc, fga, store := false, false, NO_OIDC, NO_FGA, NO_STORE;
      NoCalls(dp.spec, dp.reached.outs);
    }
  }

  lemma PassMerges(spec: Spec, outs: Outcomes, outs': Outcomes, progressing: bool, tailProgressing: bool)
    requires SameBefore(outs, outs') && TailReached(outs')
    requires HeadLegal(spec, outs, false, progressing)
    requires tailProgressing <==> !TailUp(outs')
    ensures PassLegal(spec, outs') && (AllUp(spec, outs') <==> !progressing && !tailProgressing)
  {
  }

  lemma {:induction false} StagesMerge(spec: Spec, outs: Outcomes, outs': Outcomes, calls: seq<Call>, err: bool,
                                       progressing: bool, tail: bool)
    requires SameBefore(outs, outs') && CallsLegal(spec, outs, calls)
    requires HeadLegal(spec, outs, false, progressing)
    requires !err ==> TailReached(outs') && (tail <==> !TailUp(outs'))
    ensures CallsLegal(spec, outs', calls)
    ensures !err ==> PassLegal(spec, outs') && (progressing || tail <==> !AllUp(spec, outs'))
  {
    HeadKept(spec, outs, outs', calls);
    if !err {
      PassMerges(spec, outs, outs', progressing, tail);
    }
  }

  /** What the stages before Trino leave to the seeding; in a calm pass the warehouse stage is
      reached. */
  lemma HeadEnds(dp: DataPlatform, api: Api, progressing: bool, oidc: OidcConfig, fga: FgaConfig, store: ObjectStore)
    requires InPass(dp, api) && HeadLegal(dp.spec, dp.reached.outs, false, progressing)
    requires Resolved(dp.spec, api.world, api.notes.seen, oidc, fga, store)
    ensures SeedReady(dp.spec, oidc, api.notes) && ClientSeen(dp.spec, api.notes.seen)
    ensures dp.pass.calm ==> WarehouseReady in dp.reached.outs
  {
    assert Tidy(dp.Now()) && Legal(api.Now());
    if Embedded(dp.spec) {
      assert StageDone(dp.spec, Auth, dp.reached.outs[Auth], dp.reached.facts);
    }
  }

  /** In a calm pass without an error every stage is up. */
  lemma CalmPass(s: Sheet)
    requires Tidy(s) && PassLegal(s.spec, s.reached.outs)
    ensures s.pass.calm ==> AllUp(s.spec, s.reached.outs)
  {
  }

  lemma ClientStays(spec: Spec, a: Reads, b: Reads)
    requires ClientSeen(spec, a) && Grows(a, b)
    ensures ClientSeen(spec, b)
  {
  }

  /** Everything from Trino on. */
  method ReconcileRest(dp: DataPlatform, api: Api, oidc: OidcConfig, fga: FgaConfig, store: ObjectStore, waiting: bool)
    returns (err: bool, progressing: bool)
    requires InHead(dp, api) && Ruled(dp, api)
    requires Resolved(dp.spec, api.world, api.notes.seen, oidc, fga, store) && SeedReady(dp.spec, oidc, api.notes)
    requires HeadLegal(dp.spec, dp.reached.outs, false, waiting) && CallsLegal(dp.spec, dp.reached.outs, api.calls)
    requires dp.pass.calm ==> WarehouseReady in dp.reached.outs
    modifies dp`conditions, dp`reached, api`fault, api`mark, api`secrets, api`jobs, api`notes, api`output
    ensures InPass(dp, api) && CallsLegal(dp.spec, dp.reached.outs, api.calls)
    ensures !err ==> PassLegal(dp.spec, dp.reached.outs) && (progressing <==> !AllUp(dp.spec, dp.reached.outs))
    ensures !err && IsUp(dp.reached.outs, SampleData) && SeedingEnabled(dp.spec) ==>
              JobDone(api.jobs, dp.spec.trinoNs, SampleJob)
    ensures api.notes.opaWrites <= OpaTarget(dp.spec) && (!err ==> api.notes.opaWrites == OpaTarget(dp.spec))
    ensures Since(old(api.notes), api.notes)
    ensures api.start.smooth ==> !err
    ensures !err ==> api.fault == old(api.fault)
  {
    var tail: bool;
    err, tail := ReconcileTail(dp, api, oidc, fga, store);
    StagesMerge(dp.spec, old(dp.reached.outs), dp.reached.outs, api.calls, err, waiting, tail);
    progressing := waiting || tail;
  }

  /** All stages of `reconcile`, before Ready is set. */
  method ReconcileStages(dp: DataPlatform, api: Api, catalogClient: bool) returns (err: bool, progressing: bool)
    requires InHead(dp, api) && Ruled(dp, api) && dp.reached.outs == map[] && api.calls == []
    requires api.jobs == api.start.jobs && (api.start.smooth ==> catalogClient)
    modifies dp`conditions, dp`reached, api`fault, api`mark, api`secrets, api`jobs, api`calls, api`notes, api`output
    ensures InPass(dp, api) && CallsLegal(dp.spec, dp.reached.outs, api.calls)
    ensures !err ==> PassLegal(dp.spec, dp.reached.outs) && (progressing <==> !AllUp(dp.spec, dp.reached.outs))
    ensures !err && IsUp(dp.reached.outs, SampleData) && SeedingEnabled(dp.spec) ==>
              JobDone(api.jobs, dp.spec.trinoNs, SampleJob)
    ensures api.notes.opaWrites <= OpaTarget(dp.spec) && (!err ==> api.notes.opaWrites == OpaTarget(dp.spec))
    ensures !err ==> ClientSeen(dp.spec, api.notes.seen)
    ensures api.start.smooth ==> !err
    ensures !err ==> api.fault == old(api.fault)
  {
    var oidc, fga, store;
    err, progressing, oidc, fga, store := ReconcileHead(dp, api, catalogClient);
    if err {
      return;
    }
    HeadEnds(dp, api, progressing, oidc, fga, store);
    ghost var seen := api.notes.seen;
    err, progressing := ReconcileRest(dp, api, oidc, fga, store, progressing);
    ClientStays(dp.spec, seen, api.notes.seen);
  }

  /** Ready for a pass that is over: exact, and resting on ready workloads. */
  ghost predicate ReadyLegal(spec: Spec, generation: int, workloads: Workloads,
                             conditions: Conditions, err: bool) {
    && Ready in conditions && conditions[Ready].generation == generation
    && (True(conditions, Ready) <==> !err && AllTrue(spec, conditions))
    && (True(conditions, Ready) ==>
          && AllCurrent(spec, conditions, generation)
          && forall c | c in Required(spec) :: ServingFor(spec, workloads, c))
  }

  lemma ReadyKept(spec: Spec, conditions: Conditions, generation: int, ready: bool)
    ensures var conditions' := conditions[Ready := Condition(ready, generation)];
            && (AllTrue(spec, conditions') <==> AllTrue(spec, conditions))
            && (AllCurrent(spec, conditions', generation) <==> AllCurrent(spec, conditions, generation))
  {
    var conditions' := conditions[Ready := Condition(ready, generation)];
    assert Ready !in Required(spec);
    assert forall c | c in Required(spec) :: True(conditions', c) <==> True(conditions, c);
  }

  lemma UpServes(spec: Spec, workloads: Workloads, outs: Outcomes, c: Cond)
    requires AllUp(spec, outs) && c in Required(spec)
    requires forall c | c in outs && outs[c].Up? :: ServingFor(spec, workloads, c)
    ensures ServingFor(spec, workloads, c)
  {
    if spec.lakekeeper {
      assert c in outs && outs[c].Up?;
    }
  }

  method FinishPass(dp: DataPlatform, err: bool, progressing: bool)
    requires dp.Valid()
    requires !err ==> PassLegal(dp.spec, dp.reached.outs) && (progressing <==> !AllUp(dp.spec, dp.reached.outs))
    modifies dp`conditions
    ensures ReadyLegal(dp.spec, dp.generation, dp.pass.workloads, dp.conditions, err)
    ensures True(dp.conditions, Ready) <==> !err && AllUp(dp.spec, dp.reached.outs)
  {
    assert Tidy(dp.Now());
    if !err {
      ReadyExact(dp.spec, dp.pass.conditions, dp.reached.outs, dp.generation);
      if !progressing {
        forall c | c in Required(dp.spec)
          ensures ServingFor(dp.spec, dp.pass.workloads, c)
        {
          UpServes(dp.spec, dp.pass.workloads, dp.reached.outs, c);
        }
      }
    }
    ReadyKept(dp.spec, dp.conditions, dp.generation, !err && !progressing);
    dp.SetReady(!err && !progressing);
  }

  /** OPA's copy is written where the spec says, and takes Trino's credentials away there; once
      lost they never come back, and without them no pass ends without an error. */
  ghost predicate OpaLegal(spec: Spec, secrets: Secrets, secrets': Secrets, opaWrites: set<string>, err: bool) {
    && opaWrites <= OpaTarget(spec) && (!err ==> opaWrites == OpaTarget(spec))
    && (forall ns | ns in opaWrites :: Lacks(secrets', ns))
    && NeverRegained(secrets, secrets')
    && (!err && Embedded(spec) ==> !Lacks(secrets, spec.keycloakNs))
  }

  /** What a pass leaves behind: every stage that did not fail has its generated Secrets and its
      hash, and Trino's configuration is stored as it was hashed. */
  ghost predicate Provided(spec: Spec, outs: Outcomes, secrets: Secrets, output: Output) {
    exists stored :: ProvidedWith(spec, outs, secrets, output, stored)
  }

  ghost predicate ProvidedWith(spec: Spec, outs: Outcomes, secrets: Secrets, output: Output, stored: Option<Stored>) {
    && (stored.Some? ==> Stores(secrets, stored.value))
    && forall c | c in outs && !outs[c].Failed? ::
         StageDone(spec, c, outs[c],
                   Facts(secrets.Keys, output.realm.Some?, output.superset.Some?, output.trino, stored))
  }

  /** Everything a pass promises about Secrets and outputs. */
  ghost predicate SecretsLegal(spec: Spec, world: World, secrets: Secrets,
                               secrets': Secrets, opaWrites: set<string>, seen: Reads, output: Output,
                               outs: Outcomes, err: bool) {
    && Sound(secrets, secrets', opaWrites, seen) && CopyHeld(secrets', opaWrites, output.copy)
    && OpaLegal(spec, secrets, secrets', opaWrites, err)
    && OutputLegal(spec, world, seen, output)
    && Provided(spec, outs, secrets', output)
  }

  method StartPass(dp: DataPlatform, api: Api, catalogClient: bool)
    modifies dp`pass, dp`reached, api
    ensures InHead(dp, api) && Ruled(dp, api) && dp.reached.outs == map[] && api.calls == [] && !api.fault
    ensures api.secrets == old(api.secrets) && api.jobs == old(api.jobs) && api.world == old(api.world)
    ensures api.start.secrets == api.secrets && api.start.jobs == api.jobs && dp.pass.conditions == dp.conditions
    ensures api.start.smooth <==> Smooth(dp.spec, api.world, api.secrets, catalogClient)
    ensures dp.pass.calm <==> Calm(dp.spec, api.world, api.secrets, api.jobs, catalogClient)
  {
    dp.StartPass(api.world.workloads, Calm(dp.spec, api.world, api.secrets, api.jobs, catalogClient));
    api.StartPass(dp.spec.seedHash, LawOf(dp.spec, api.world), Smooth(dp.spec, api.world, api.secrets, catalogClient));
    assert Agreed(RulesOf(dp, api));
  }

  lemma LawHeld(spec: Spec, world: World, law: Law, seen: Reads, output: Output)
    requires Governed(spec, world, law) && law(seen, output)
    ensures OutputLegal(spec, world, seen, output)
  {
    assert law(seen, output) <==> OutputLegal(spec, world, seen, output);
  }

  /** What the books say at the end of a pass. One that read Trino's client credentials cannot
      have started without them. */
  lemma BooksHeld(t: Account, s: Sheet, world: World, err: bool)
    requires Legal(t) && OutputLegal(s.spec, world, t.notes.seen, t.output)
    requires t.notes.opaWrites <= OpaTarget(s.spec) && (!err ==> t.notes.opaWrites == OpaTarget(s.spec))
    requires !err ==> ClientSeen(s.spec, t.notes.seen)
    requires Tidy(s) && Behind(s.reached.facts, FactsOf(t.notes, t.output))
    ensures SecretsLegal(s.spec, world, t.start.secrets, t.secrets, t.notes.opaWrites, t.notes.seen, t.output,
                         s.reached.outs, err)
  {
    assert forall ns | ns in t.notes.opaWrites :: Lacks(t.secrets, ns);
    ProvidedHeld(t, s);
  }

  lemma ProvidedHeld(t: Account, s: Sheet)
    requires Legal(t) && Tidy(s) && Behind(s.reached.facts, FactsOf(t.notes, t.output))
    ensures Provided(s.spec, s.reached.outs, t.secrets, t.output)
  {
    var outs, done := s.reached.outs, FactsOf(t.notes, t.output);
    var all := done.(made := t.secrets.Keys);
    forall c | c in outs && !outs[c].Failed?
      ensures StageDone(s.spec, c, outs[c], all)
    {
      StageStays(s.spec, c, outs[c], s.reached.facts, done);
      StageStays(s.spec, c, outs[c], done, all);
    }
    assert ProvidedWith(s.spec, outs, t.secrets, t.output, t.notes.stored);
  }

  /** A pass up to where Ready is set. */
  method RunStages(dp: DataPlatform, api: Api, catalogClient: bool) returns (err: bool, progressing: bool)
    modifies dp`conditions, dp`pass, dp`reached, api
    ensures dp.Valid() && dp.pass.workloads == api.world.workloads && api.world == old(api.world)
    ensures SecretsLegal(dp.spec, api.world, old(api.secrets), api.secrets, api.notes.opaWrites,
                         api.notes.seen, api.output, dp.reached.outs, err)
    ensures JobsStep(old(api.jobs), api.jobs, dp.spec.seedHash)
    ensures CallsLegal(dp.spec, dp.reached.outs, api.calls)
    ensures !err ==> PassLegal(dp.spec, dp.reached.outs) && (progressing <==> !AllUp(dp.spec, dp.reached.outs))
    ensures !err && IsUp(dp.reached.outs, SampleData) && SeedingEnabled(dp.spec) ==>
              JobDone(api.jobs, dp.spec.trinoNs, SampleJob)
    ensures !err ==> !api.fault
    ensures Smooth(dp.spec, api.world, old(api.secrets), catalogClient) ==> !err
    ensures Calm(dp.spec, api.world, old(api.secrets), old(api.jobs), catalogClient) ==> !err && !progressing
  {
    StartPass(dp, api, catalogClient);
    err, progressing := ReconcileStages(dp, api, catalogClient);
    assert Legal(api.Now()) && Tidy(dp.Now()) && Agreed(RulesOf(dp, api));
    LawHeld(dp.spec, api.world, api.start.law, api.notes.seen, api.output);
    BooksHeld(api.Now(), dp.Now(), api.world, err);
    JobsHeld(api.Now());
    if !err {
      CalmPass(dp.Now());
    }
  }

  lemma JobsHeld(t: Account)
    requires Legal(t)
    ensures JobsStep(t.start.jobs, t.jobs, t.start.hash)
  {
  }

  /** `reconcile`. Credentials and Jobs are only treated as they may be, remote calls come in
      order, and Ready is exact: after a pass without an error it is True if and only if all
      required conditions are, which are then all current and rest on ready workloads; after
      an error it is False. Errors have a reason: a smooth pass ends without one, and a calm
      one is Ready. */
  method Reconcile(dp: DataPlatform, api: Api, catalogClient: bool) returns (err: bool, ghost outs: Outcomes)
    modifies dp`conditions, dp`pass, dp`reached, api
    ensures api.world == old(api.world)
    ensures SecretsLegal(dp.spec, api.world, old(api.secrets), api.secrets, api.notes.opaWrites,
                         api.notes.seen, api.output, outs, err)
    ensures JobsStep(old(api.jobs), api.jobs, dp.spec.seedHash)
    ensures CallsLegal(dp.spec, outs, api.calls)
    ensures ReadyLegal(dp.spec, dp.generation, api.world.workloads, dp.conditions, err)
    ensures True(dp.conditions, Ready) <==> !err && AllUp(dp.spec, outs)
    ensures !err && IsUp(outs, SampleData) && SeedingEnabled(dp.spec) ==>
              JobDone(api.jobs, dp.spec.trinoNs, SampleJob)
    ensures !err ==> !api.fault
    ensures Smooth(dp.spec, api.world, old(api.secrets), catalogClient) ==> !err
    ensures Calm(dp.spec, api.world, old(api.secrets), old(api.jobs), catalogClient) ==> True(dp.conditions, Ready)
  {
    var progressing: bool;
    err, progressing := RunStages(dp, api, catalogClient);
    outs := dp.reached.outs;
    FinishPass(dp, err, progressing);
  }
}

/** LakeKeeper's database and the object store. */
module Foundations {
  import opened Cluster
  import opened Platform

  method EnsurePostgres(api: Api, ns: string, database: string) returns (ok: bool)
    requires api.Valid()
    modifies api`fault, api`secrets, api`notes
    ensures api.Valid() && Later(old(api.notes), api.notes)
    ensures ok ==> (ns, PostgresLogin) in api.notes.made
    ensures forall key: Key {:trigger Unchanged(old(api.secrets), api.secrets, key)} | key.1 != PostgresLogin ::
              Unchanged(old(api.secrets), api.secrets, key)
    ensures api.world.healthy ==> ok
    ensures ok ==> api.fault == old(api.fault)
  {
    var password;
    ok, password := api.Random();
    if ok {
      ok := api.EnsureGeneratedSecret(ns, PostgresLogin,
                                      map[Username := "postgres", Password := password, Database := database]);
    }
  }

  ghost predicate PostgresEnd(spec: Spec, world: World, made: set<Key>, o: Outcome) {
    if spec.postgresEmbedded then
      && ReadyEnd(world, spec.lakekeeperNs, PostgresSet, o)
      && (!o.Failed? ==> (spec.lakekeeperNs, PostgresLogin) in made)
    else !o.Waiting? && (world.healthy ==> o.Up?)
  }

  method PostgresOutcome(api: Api, spec: Spec) returns (o: Outcome)
    requires api.Valid()
    modifies api`fault, api`secrets, api`notes
    ensures api.Valid() && Later(old(api.notes), api.notes)
    ensures PostgresEnd(spec, api.world, api.notes.made, o)
    ensures !o.Failed? ==> api.fault == old(api.fault)
  {
    if !spec.postgresEmbedded {
      var configured := api.Request();
      return if configured then Up else Failed;
    }
    var ok := EnsurePostgres(api, spec.lakekeeperNs, spec.database);
    if ok {
      ok := api.Request();
    }
    o := Finish(api, ok, spec.lakekeeperNs, PostgresSet);
  }

  lemma PostgresFits(spec: Spec, world: World, smooth: bool, calm: bool, done: Facts, o: Outcome)
    requires PostgresEnd(spec, world, done.made, o) && Paced(spec, world, smooth, calm, Postgres)
    requires spec.lakekeeper
    ensures Fits(spec, world.workloads, calm, Postgres, o, done) && (smooth ==> !o.Failed?)
    ensures o.Waiting? ==> spec.postgresEmbedded && Starting(world.workloads, spec.lakekeeperNs, PostgresSet)
  {
  }

  lemma PostgresSettles(dp: DataPlatform, api: Api, o: Outcome)
    requires Ruled(dp, api)
    requires PostgresEnd(dp.spec, api.world, api.notes.made, o) && dp.spec.lakekeeper
    ensures Fits(dp.spec, api.world.workloads, dp.pass.calm, Postgres, o, Done(api))
    ensures (api.start.smooth ==> !o.Failed?)
    ensures o.Waiting? ==> dp.spec.postgresEmbedded && Starting(api.world.workloads, dp.spec.lakekeeperNs, PostgresSet)
  {
    PaceOf(dp, api, Postgres);
    PostgresFits(dp.spec, api.world, api.start.smooth, dp.pass.calm, Done(api), o);
  }

  method ReconcilePostgres(dp: DataPlatform, api: Api) returns (o: Outcome)
    requires InPass(dp, api) && Ruled(dp, api) && dp.spec.lakekeeper
    modifies dp`conditions, dp`reached, api`fault, api`mark, api`secrets, api`notes
    ensures InPass(dp, api) && dp.reached.outs == old(dp.reached.outs)[Postgres := o]
    ensures Later(old(api.notes), api.notes)
    ensures o.Waiting? ==> dp.spec.postgresEmbedded && Starting(api.world.workloads, dp.spec.lakekeeperNs, PostgresSet)
    ensures api.start.smooth ==> !o.Failed?
    ensures !o.Failed? ==> api.fault == old(api.fault)
  {
    o := PostgresOutcome(api, dp.spec);
    PostgresSettles(dp, api, o);
    Settle(dp, api, Postgres, o);
  }

  method MinioCredentials(api: Api, ns: string) returns (ok: bool, access: string, secret: string)
    requires api.Valid()
    modifies api`fault, api`secrets, api`notes
    ensures api.Valid() && Later(old(api.notes), api.notes)
    ensures ok ==> HoldsKeys(api.notes.seen, ns, ObjectStore(access, secret)) && (ns, MinioKeys) in api.notes.made
    ensures api.world.healthy && WholeIfThere(old(api.secrets), (ns, MinioKeys)) ==> ok
    ensures ok ==> api.fault == old(api.fault)
  {
    secret := "";
    ok, access := api.Random();
    if ok {
      ok, secret := api.Random();
    }
    if ok {
      ok := api.EnsureGeneratedSecret(ns, MinioKeys,
                                      map[AccessKey := access, SecretKey := secret]);
    }
    if ok {
      ok := api.Request();
    }
    if ok {
      ok, access := api.GetSecretData(ns, MinioKeys, AccessKey);
    }
    if ok {
      ok, secret := api.GetSecretData(ns, MinioKeys, SecretKey);
    }
  }

  /** The keys are MinIO's, as read in this pass. */
  ghost predicate HoldsKeys(seen: Reads, ns: string, store: ObjectStore) {
    && (ns, MinioKeys, AccessKey) in seen && seen[(ns, MinioKeys, AccessKey)] == store.accessKey
    && (ns, MinioKeys, SecretKey) in seen && seen[(ns, MinioKeys, SecretKey)] == store.secretKey
  }

  /** How the bucket Job reaches MinIO. */
  function McData(ns: string, access: string, secret: string): Data {
    map[McHost := "http://" + access + ":" + secret + "@minio." + ns + ".svc:9000"]
  }

  method EnsureMinioBucket(api: Api, ns: string, hash: string, access: string, secret: string) returns (o: Outcome)
    requires api.Valid() && api.start.hash == hash
    modifies api`fault, api`secrets, api`jobs
    ensures api.Valid()
    ensures o.Up? ==> JobDone(api.jobs, ns, BucketJob)
    ensures o.Waiting? ==> !JobDone(old(api.jobs), ns, BucketJob)
    ensures !o.Failed? ==>
              && JobVisited(old(api.jobs), api.jobs, (ns, BucketJob), hash, o.Up?)
              && api.secrets == old(api.secrets)[(ns, MinioMc) := McData(ns, access, secret)]
    ensures api.world.healthy ==> !o.Failed?
    ensures !o.Failed? ==> api.fault == old(api.fault)
  {
    var ok := api.ReplaceSecret(ns, MinioMc, McData(ns, access, secret));
    if !ok {
      return Failed;
    }
    var a := api.EnsureJob(ns, BucketJob, hash);
    o := if a.Error? then Failed else if a.Yes? then Up else Waiting;
  }

  method ReconcileMinio(api: Api, ns: string, hash: string) returns (o: Outcome, store: ObjectStore)
    requires api.Valid() && api.start.hash == hash
    modifies api`fault, api`secrets, api`jobs, api`notes
    ensures api.Valid() && Later(old(api.notes), api.notes)
    ensures !o.Failed? ==> HoldsKeys(api.notes.seen, ns, store) && (ns, MinioKeys) in api.notes.made
    ensures o.Up? ==> Serving(api.world.workloads, ns, MinioSet) && JobDone(api.jobs, ns, BucketJob)
    ensures o.Waiting? ==> Starting(api.world.workloads, ns, MinioSet) || !JobDone(old(api.jobs), ns, BucketJob)
    ensures !o.Failed? && Serving(api.world.workloads, ns, MinioSet) ==>
              && JobVisited(old(api.jobs), api.jobs, (ns, BucketJob), hash, o.Up?)
              && (ns, MinioMc) in api.secrets
              && api.secrets[(ns, MinioMc)] == McData(ns, store.accessKey, store.secretKey)
    ensures && api.world.healthy && Present(api.world.workloads, ns, MinioSet)
            && WholeIfThere(old(api.secrets), (ns, MinioKeys))
            ==> !o.Failed?
    ensures !o.Failed? ==> api.fault == old(api.fault)
  {
    store := NO_STORE;
    var ok := api.Request();
    if !ok {
      return Failed, store;
    }
    var access, secret: string;
    ok, access, secret := MinioCredentials(api, ns);
    store := ObjectStore(access, secret);
    o := Finish(api, ok, ns, MinioSet);
    if o.Up? {
      o := EnsureMinioBucket(api, ns, hash, access, secret);
    }
  }

  ghost predicate StoreEnd(spec: Spec, world: World, whole: bool, jobs: Jobs,
                           jobs': Jobs, notes: Notes, o: Outcome, store: ObjectStore) {
    if spec.storageEmbedded then
      var ns := spec.minioNs;
      && (!o.Failed? ==> HoldsKeys(notes.seen, ns, store) && (ns, MinioKeys) in notes.made)
      && (o.Up? ==> Serving(world.workloads, ns, MinioSet) && JobDone(jobs', ns, BucketJob))
      && (o.Waiting? ==> Starting(world.workloads, ns, MinioSet) || !JobDone(jobs, ns, BucketJob))
      && (!o.Failed? && Serving(world.workloads, ns, MinioSet) ==>
            JobVisited(jobs, jobs', (ns, BucketJob), spec.seedHash, o.Up?))
      && (world.healthy && whole && Present(world.workloads, ns, MinioSet) ==> !o.Failed?)
    else
      && !o.Waiting? && (world.healthy ==> o.Up?)
      && store == ObjectStore(world.external.accessKey, world.external.secretKey)
  }

  method StoreOutcome(api: Api, spec: Spec) returns (o: Outcome, store: ObjectStore)
    requires api.Valid() && api.start.hash == spec.seedHash
    modifies api`fault, api`secrets, api`jobs, api`notes
    ensures api.Valid() && Later(old(api.notes), api.notes)
    ensures StoreEnd(spec, api.world, WholeIfThere(old(api.secrets), (spec.minioNs, MinioKeys)),
                     old(api.jobs), api.jobs, api.notes, o, store)
    ensures !o.Failed? ==> api.fault == old(api.fault)
  {
    if spec.storageEmbedded {
      o, store := ReconcileMinio(api, spec.minioNs, spec.seedHash);
    } else {
      var configured := api.Request();
      o := if configured then Up else Failed;
      store := ObjectStore(api.world.external.accessKey, api.world.external.secretKey);
    }
  }

  lemma StoreFits(spec: Spec, world: World, smooth: bool, calm: bool, whole: bool,
                  jobs: Jobs, jobs': Jobs, notes: Notes, done: Facts, o: Outcome, store: ObjectStore)
    requires StoreEnd(spec, world, whole, jobs, jobs', notes, o, store)
    requires Paced(spec, world, smooth, calm, Minio) && (smooth ==> whole) && (calm ==> JobsAllDone(spec, jobs))
    requires spec.lakekeeper && done.made == notes.made
    ensures Fits(spec, world.workloads, calm, Minio, o, done) && (smooth ==> !o.Failed?)
    ensures !o.Failed? ==> StoreResolved(spec, world, notes.seen, store)
    ensures o.Up? && spec.storageEmbedded ==> JobDone(jobs', spec.minioNs, BucketJob)
    ensures !o.Failed? && spec.storageEmbedded && Serving(world.workloads, spec.minioNs, MinioSet) ==>
              JobVisited(jobs, jobs', (spec.minioNs, BucketJob), spec.seedHash, o.Up?)
    ensures o.Waiting? ==>
              && spec.storageEmbedded
              && (Starting(world.workloads, spec.minioNs, MinioSet) || !JobDone(jobs, spec.minioNs, BucketJob))
  {
  }

  lemma StoreSettles(dp: DataPlatform, api: Api, whole: bool, jobs: Jobs, o: Outcome, store: ObjectStore)
    requires Ruled(dp, api)
    requires StoreEnd(dp.spec, api.world, whole, jobs, api.jobs, api.notes, o, store)
    requires dp.spec.lakekeeper && jobs == api.start.jobs && (api.start.smooth ==> whole)
    ensures Fits(dp.spec, api.world.workloads, dp.pass.calm, Minio, o, Done(api)) && (api.start.smooth ==> !o.Failed?)
    ensures !o.Failed? ==> StoreResolved(dp.spec, api.world, api.notes.seen, store)
    ensures o.Up? && dp.spec.storageEmbedded ==> JobDone(api.jobs, dp.spec.minioNs, BucketJob)
    ensures !o.Failed? && dp.spec.storageEmbedded && Serving(api.world.workloads, dp.spec.minioNs, MinioSet) ==>
              JobVisited(jobs, api.jobs, (dp.spec.minioNs, BucketJob), dp.spec.seedHash, o.Up?)
    ensures o.Waiting? ==>
              && dp.spec.storageEmbedded
              && (|| Starting(api.world.workloads, dp.spec.minioNs, MinioSet)
                  || !JobDone(jobs, dp.spec.minioNs, BucketJob))
  {
    PaceOf(dp, api, Minio);
    assert Agreed(RulesOf(dp, api));
    StoreFits(dp.spec, api.world, api.start.smooth, dp.pass.calm, whole, jobs, api.jobs, api.notes,
              Done(api), o, store);
  }

  method ReconcileObjectStore(dp: DataPlatform, api: Api) returns (o: Outcome, store: ObjectStore)
    requires InPass(dp, api) && Ruled(dp, api) && dp.spec.lakekeeper && api.jobs == api.start.jobs
    modifies dp`conditions, dp`reached, api`fault, api`mark, api`secrets, api`jobs, api`notes
    ensures InPass(dp, api) && dp.reached.outs == old(dp.reached.outs)[Minio := o] && Later(old(api.notes), api.notes)
    ensures !o.Failed? ==> StoreResolved(dp.spec, api.world, api.notes.seen, store)
    ensures o.Up? && dp.spec.storageEmbedded ==> JobDone(api.jobs, dp.spec.minioNs, BucketJob)
    ensures !o.Failed? && dp.spec.storageEmbedded && Serving(api.world.workloads, dp.spec.minioNs, MinioSet) ==>
              JobVisited(old(api.jobs), api.jobs, (dp.spec.minioNs, BucketJob), dp.spec.seedHash, o.Up?)
    ensures o.Waiting? ==>
              && dp.spec.storageEmbedded
              && (|| Starting(api.world.workloads, dp.spec.minioNs, MinioSet)
                  || !JobDone(old(api.jobs), dp.spec.minioNs, BucketJob))
    ensures api.start.smooth ==> !o.Failed?
    ensures !o.Failed? ==> api.fault == old(api.fault)
  {
    ghost var whole := WholeIfThere(api.secrets, (dp.spec.minioNs, MinioKeys));
    SmoothWhole(dp, api, (dp.spec.minioNs, MinioKeys));
    SeedHash(dp, api);
    o, store := StoreOutcome(api, dp.spec);
    StoreSettles(dp, api, whole, old(api.jobs), o, store);
    Settle(dp, api, Minio, o);
  }
}

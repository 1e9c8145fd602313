/** OPA's copy of the credentials, and Trino. */
module TrinoStack {
  import opened Wrappers
  import opened Cluster
  import opened Platform
  import ConfigHash
  import Properties

  /** `reconcileOPA`: the OPA credentials are copied next to OpenFGA, replacing whatever
      Secret has that name there. */
  method ReconcileOPA(api: Api, spec: Spec, oidc: OidcConfig, fga: FgaConfig) returns (ok: bool)
    requires api.Valid() && api.notes.opaWrites == {}
    requires fga.enabled && oidc.enabled ==>
               api.start.law(api.notes.seen,
                       api.output.(copy := Some((oidc.opaClientId, oidc.opaSecret))))
    modifies api`fault, api`secrets, api`notes, api`output
    ensures api.Valid()
    ensures (!fga.enabled || !oidc.enabled) ==> ok && api.secrets == old(api.secrets) && api.notes.opaWrites == {}
    ensures api.notes.opaWrites == {} || api.notes.opaWrites == {spec.openfgaNs}
    ensures api.notes == old(api.notes).(opaWrites := api.notes.opaWrites)
    ensures ok && fga.enabled && oidc.enabled ==>
              && api.notes.opaWrites == {spec.openfgaNs}
              && api.secrets == old(api.secrets)[
                   (spec.openfgaNs, Oidc) := map[OpaClientId := oidc.opaClientId, OpaClientSecret := oidc.opaSecret]]
    ensures api.world.healthy ==> ok
    ensures ok ==> api.fault == old(api.fault)
  {
    if !fga.enabled || !oidc.enabled {
      return true;
    }
    ok := api.ReplaceOIDC(spec.openfgaNs, oidc.opaClientId, oidc.opaSecret);
    if ok {
      ok := api.Request();
    }
  }

  lemma CopyLawful(dp: DataPlatform, api: Api, oidc: OidcConfig)
    requires Ruled(dp, api) && api.Valid() && OidcResolved(dp.spec, api.world, api.notes.seen, oidc)
    ensures api.start.law(api.notes.seen, api.output.(copy := Some((oidc.opaClientId, oidc.opaSecret))))
  {
    Lawful(dp, api, api.output.(copy := Some((oidc.opaClientId, oidc.opaSecret))));
  }

  method TrinoSharedSecret(api: Api, spec: Spec) returns (ok: bool, shared: string)
    requires api.Valid()
    modifies api`fault, api`secrets, api`notes
    ensures api.Valid() && Later(old(api.notes), api.notes)
    ensures ok ==> SharedResolved(spec, api.notes.seen, shared) && InternalMade(spec, api.notes.made)
    ensures api.world.healthy && WholeIfThere(old(api.secrets), (spec.trinoNs, TrinoInternal)) ==> ok
    ensures ok ==> api.fault == old(api.fault)
  {
    ok, shared := true, "";
    if OAuthOn(spec) {
      ok, shared := api.Random();
      if ok {
        ok := api.EnsureGeneratedSecret(spec.trinoNs, TrinoInternal, map[SharedSecret := shared]);
      }
      if ok {
        ok, shared := api.GetSecretData(spec.trinoNs, TrinoInternal, SharedSecret);
      }
    }
  }

  ghost predicate InternalMade(spec: Spec, made: set<Key>) {
    OAuthOn(spec) ==> (spec.trinoNs, TrinoInternal) in made
  }

  ghost predicate SharedResolved(spec: Spec, seen: Reads, shared: string) {
    SharedSeen(spec, seen) && shared == if OAuthOn(spec) then SharedIn(spec, seen) else ""
  }

  /** Trino's configuration of this pass. */
  method TrinoTexts(spec: Spec, oidc: OidcConfig, fga: FgaConfig, store: ObjectStore, shared: string,
                    ghost world: World, ghost seen: Reads, ghost output: Output)
    returns (trino: TrinoOutput)
    requires Resolved(spec, world, seen, oidc, fga, store) && SharedResolved(spec, seen, shared)
    ensures OutputLegal(spec, world, seen, output) ==>
              OutputLegal(spec, world, seen, output.(trino := Some(trino)))
  {
    var credentials :=
      ConfigHash.Credentials(oidc.clientId, oidc.clientSecret, store.accessKey, store.secretKey, shared);
    CredentialsAre(spec, world, seen, oidc, store, shared);
    ghost var order;
    var setting := ConfigHash.Setting(spec.trinoSpec, UsesOf(spec), credentials, fga.opaUrl && oidc.enabled);
    var texts, files;
    texts, files, order := ConfigHash.RenderTrino(setting);
    trino := TrinoOutput(texts, FileData(files));
    TrinoHashed(spec, world, seen, output, order);
  }

  lemma TrinoHashed(spec: Spec, world: World, seen: Reads, output: Output,
                    order: seq<string>)
    requires TrinoRead(spec, seen)
    requires Properties.Enumerates(order, spec.trinoSpec.extraCatalogs)
    ensures var trino := TrinoOutputOf(SettingOf(spec, world, seen), order);
            OutputLegal(spec, world, seen, output) ==>
              OutputLegal(spec, world, seen, output.(trino := Some(trino)))
  {
  }

  lemma CredentialsAre(spec: Spec, world: World, seen: Reads, oidc: OidcConfig, store: ObjectStore,
                       shared: string)
    requires OidcResolved(spec, world, seen, oidc) && StoreResolved(spec, world, seen, store)
    requires SharedResolved(spec, seen, shared)
    ensures CredentialsOf(spec, world, seen)
            == ConfigHash.Credentials(oidc.clientId, oidc.clientSecret, store.accessKey, store.secretKey, shared)
  {
  }

  method TrinoOutputs(dp: DataPlatform, api: Api, oidc: OidcConfig, fga: FgaConfig, store: ObjectStore, shared: string,
                      ghost seen: Reads)
    returns (trino: TrinoOutput)
    requires InPass(dp, api) && Ruled(dp, api) && Grows(seen, api.notes.seen)
    requires Resolved(dp.spec, api.world, seen, oidc, fga, store)
    requires SharedResolved(dp.spec, api.notes.seen, shared)
    ensures api.start.law(api.notes.seen, api.output.(trino := Some(trino)))
  {
    ResolvedGrows(dp.spec, api.world, seen, api.notes.seen, oidc, fga, store);
    trino := TrinoTexts(dp.spec, oidc, fga, store, shared, api.world, api.notes.seen, api.output);
    Lawful(dp, api, api.output.(trino := Some(trino)));
  }

  /** Trino's configuration has been hashed, and is what its Secrets hold. */
  ghost predicate TrinoDone(spec: Spec, made: set<Key>, trino: Option<TrinoOutput>, stored: Option<Stored>) {
    && InternalMade(spec, made)
    && trino.Some? && stored == Some(StoredAs(spec.trinoNs, trino.value))
  }

  method ApplyTrino(dp: DataPlatform, api: Api, oidc: OidcConfig, fga: FgaConfig, store: ObjectStore)
    returns (ok: bool)
    requires InPass(dp, api) && Ruled(dp, api)
    requires Resolved(dp.spec, api.world, api.notes.seen, oidc, fga, store) && api.notes.stored == None
    modifies api`fault, api`secrets, api`notes, api`output
    ensures InPass(dp, api) && Since(old(api.notes), api.notes) && api.notes.opaWrites == old(api.notes.opaWrites)
    ensures ok ==> TrinoDone(dp.spec, api.notes.made, api.output.trino, api.notes.stored)
    ensures api.start.smooth ==> ok
    ensures ok ==> api.fault == old(api.fault)
  {
    PaceOf(dp, api, Trino);
    SmoothWhole(dp, api, (dp.spec.trinoNs, TrinoInternal));
    var shared;
    ok, shared := TrinoSharedSecret(api, dp.spec);
    if !ok {
      return;
    }
    var trino := TrinoOutputs(dp, api, oidc, fga, store, shared, old(api.notes.seen));
    ok := api.StoreTrino(dp.spec.trinoNs, trino);
    if ok {
      ok := api.Request();
    }
  }

  lemma TrinoSettles(dp: DataPlatform, api: Api, applied: bool, o: Outcome)
    requires Ruled(dp, api)
    requires o == if applied then OutcomeOf(AnswerOf(api.world.workloads, dp.spec.trinoNs, TrinoDeployment)) else Failed
    requires applied ==> TrinoDone(dp.spec, api.notes.made, api.output.trino, api.notes.stored)
    requires dp.spec.trino && (api.start.smooth ==> applied)
    ensures Fits(dp.spec, api.world.workloads, dp.pass.calm, Trino, o, Done(api)) && (api.start.smooth ==> !o.Failed?)
    ensures o.Waiting? ==> Starting(api.world.workloads, dp.spec.trinoNs, TrinoDeployment)
  {
    PaceOf(dp, api, Trino);
    TrinoFits(dp.spec, api.world, api.start.smooth, dp.pass.calm, applied, Done(api), o);
  }

  method ReconcileTrino(dp: DataPlatform, api: Api, oidc: OidcConfig, fga: FgaConfig, store: ObjectStore)
    returns (o: Outcome)
    requires InPass(dp, api) && Ruled(dp, api)
    requires Resolved(dp.spec, api.world, api.notes.seen, oidc, fga, store)
    requires dp.spec.trino && api.notes.stored == None
    modifies dp`conditions, dp`reached, api`fault, api`mark, api`secrets, api`notes, api`output
    ensures InPass(dp, api) && dp.reached.outs == old(dp.reached.outs)[Trino := o]
    ensures Since(old(api.notes), api.notes) && api.notes.opaWrites == old(api.notes.opaWrites)
    ensures o.Waiting? ==> Starting(api.world.workloads, dp.spec.trinoNs, TrinoDeployment)
    ensures api.start.smooth ==> !o.Failed?
    ensures !o.Failed? ==> api.fault == old(api.fault)
  {
    var ok := ApplyTrino(dp, api, oidc, fga, store);
    o := Finish(api, ok, dp.spec.trinoNs, TrinoDeployment);
    TrinoSettles(dp, api, ok, o);
    Settle(dp, api, Trino, o);
  }

  lemma TrinoFits(spec: Spec, world: World, smooth: bool, calm: bool, applied: bool, done: Facts,
                  o: Outcome)
    requires o == if applied then OutcomeOf(AnswerOf(world.workloads, spec.trinoNs, TrinoDeployment)) else Failed
    requires applied ==> TrinoDone(spec, done.made, done.trino, done.stored)
    requires Paced(spec, world, smooth, calm, Trino) && spec.trino && (smooth ==> applied)
    ensures Fits(spec, world.workloads, calm, Trino, o, done) && (smooth ==> !o.Failed?)
    ensures o.Waiting? ==> Starting(world.workloads, spec.trinoNs, TrinoDeployment)
  {
  }

  /** The namespace, then `reconcileOPA`. */
  method ReconcilePolicies(dp: DataPlatform, api: Api, oidc: OidcConfig, fga: FgaConfig) returns (ok: bool)
    requires InHead(dp, api) && Ruled(dp, api) && dp.spec.trino
    requires OidcResolved(dp.spec, api.world, api.notes.seen, oidc)
    requires fga.enabled == (dp.spec.lakekeeper && dp.spec.authz)
    modifies api`fault, api`secrets, api`notes, api`output
    ensures InPass(dp, api) && api.notes == old(api.notes).(opaWrites := api.notes.opaWrites)
    ensures api.notes.opaWrites <= OpaTarget(dp.spec) && (ok ==> api.notes.opaWrites == OpaTarget(dp.spec))
    ensures api.start.smooth ==> ok
    ensures ok ==> api.fault == old(api.fault)
  {
    PaceOf(dp, api, Trino);
    CopyLawful(dp, api, oidc);
    ok := api.Request();
    if ok {
      ok := ReconcileOPA(api, dp.spec, oidc, fga);
    }
  }

  /** An error before `reconcileTrino` leaves the Trino condition as it was. */
  method ReconcileTrinoStack(dp: DataPlatform, api: Api, oidc: OidcConfig, fga: FgaConfig, store: ObjectStore)
    returns (err: bool)
    requires InHead(dp, api) && Ruled(dp, api)
    requires Resolved(dp.spec, api.world, api.notes.seen, oidc, fga, store)
    modifies dp`conditions, dp`reached, api`fault, api`mark, api`secrets, api`notes, api`output
    ensures InPass(dp, api) && Since(old(api.notes), api.notes)
    ensures api.notes.opaWrites <= OpaTarget(dp.spec) && (!err ==> api.notes.opaWrites == OpaTarget(dp.spec))
    ensures Touched(old(dp.reached.outs), dp.reached.outs, Trino) && (!err ==> Reached(dp.reached.outs, Trino))
    ensures api.start.smooth ==> !err
    ensures !err ==> api.fault == old(api.fault)
  {
    if !dp.spec.trino {
      Settle(dp, api, Trino, Up);
      return false;
    }
    var ok := ReconcilePolicies(dp, api, oidc, fga);
    if !ok {
      return true;
    }
    var o := ReconcileTrino(dp, api, oidc, fga, store);
    err := o.Failed?;
  }
}

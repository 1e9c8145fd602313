# Verified model of the data-platform operator

The operator deploys a lakehouse (object store, Postgres, Keycloak, OpenFGA, LakeKeeper, OPA,
Trino, Superset) from one `DataPlatform` resource, and ships the OPA policies that decide what a
Trino user may see. The model covers the five parts where correctness is hardest to see:

- **The batched decision** (`Lakekeeper`, `TrinoPolicy`, `TrinoBatch`, `TrinoBatchRefinement`,
  `TrinoDecision`, `TrinoLostRequest`): fast paths, one evaluation per unmanaged catalog, and a paired,
  chunked check list must decide like the plain `allow`, and both as LakeKeeper's replies and the listed
  system names say.
- **Row filters and column masks** (`SqlText`, `AccessSpec`, `RowFilters`, `ColumnMasks`): from the
  custom resource, through OpenFGA's answer and printed SQL, to the rows and columns a user sees. The
  SQL reader follows `<literal>` and `<in predicate>`, sections 5.3 and 8.4 of ISO/IEC 9075-2.
- **The access store** (`AuthzModel`, `AuthzStore`, `Membership`): merged types, a paged search,
  append-only models, and memberships in two engines.
- **The reconcile loop**: the cluster and its bookkeeping (`Cluster`), conditions and what they rest on
  (`Platform`), the stages (`Foundations`, `Identity`, `Authorization`, `Catalog`, `TrinoStack`,
  `SupersetStack`, `Seeding`), one pass on top of stale conditions (`Reconciler`), whole runs with an
  arbitrary environment between passes (`Runs`), and what restarts a component (`Restarts`,
  `Properties`, `ConfigHash`).
- **The sample data** (`Seed`, `SampleData`, `SampleDataLines`, `SampleDataSplit`, `SampleDataReader`,
  `SampleDataRun`): what the seed script recovers from the operator's SQL file, and what running what
  it says leaves behind.

`Order`, `Sequences` and `Wrappers` hold what the others share. Any API call may fail at any point, and a
write may be performed although its reply is lost; the environment answers arbitrarily, and OpenFGA and
LakeKeeper are oracles fixed within one decision. Errors have a reason, too: a pass whose requests are
answered, with its workloads there and its Secrets whole, ends without one, and a pass in which a request
failed never does.

What the code does, where it differs from what one would expect:

- A failed chunk of a batch check shifts the results after it; chunking is right exactly when every chunk
  is answered in full. With limit 2 and the first of two requests lost, the batch allows the table that
  `allow` denies and denies the one it allows (`TrinoLostRequest.LostRequestInBatch`).
- Batch and `allow` differ on function resources of wholesale-allowed catalogs and, with the blanket
  off, on system schemas of unmanaged catalogs for admins; a select asks a different view action.
- A 404 on the read of the latest authorization model appends a model without comparing
  (`AuthzStore.NotFoundRepeats`).
- The `IN` printer does not double quotes in the column name; the round trip holds exactly without one
  (the resource's validation pattern excludes it).
- Two restrictions of one column with different masks can give a column two masks.
- The shape comparison does not see assignable types: it cannot tell a configured "group" type with only
  "member" from the built-in one, so that relation can be missing for members of groups under the model
  that is kept, exactly as `AuthzStore.LatestAssignable` says.
- Memberships are only ever added: a user removed from a Keycloak group keeps the role and the tuple
  (`Membership.LeavingKeepsBoth`).
- With two or more extra catalogs the input of Trino's config hash depends on map order, so an
  unchanged spec can restart Trino; so can OpenFGA's database becoming ready or unready.
- Keycloak's Secret and OPA's copy are both named "oidc". With OpenFGA in Keycloak's namespace the
  first error-free pass loses Trino's credentials, and every later one fails.
- A schema name that ends in white space or a semicolon breaks the seed script, and so does one with a
  line break other than a line feed, with a line that is blank, a comment or closed by a semicolon
  (`SampleDataSplit.SampleDataSplits` has the exact condition); nothing in the resource forbids one.
- The sample data stage reads a warehouse condition that may be a leftover of an earlier pass; Ready is
  exact all the same, because the gates are checked in the same pass.
- A succeeded seed Job is kept even when its seed hash is outdated.
- "Never deletes a succeeded Job" is false: a seed Job of another seed, or a bucket Job that cannot write
  its config, that succeeds between being read and being deleted is deleted all the same
  (`Runs.SucceededJobDeletedExact` has the exact condition).

`dafny verify dfyconfig.toml` checks the project. No proof uses automatic induction; lemmas over
sequences of records switch it off.

## Model

| member | source | states |
|---|---|---|
| `TrinoBatchRefinement.BatchExact` | internal/controller/embed/opapolicies/trino-main.rego:74-160 | For every resource list, operation, user and configuration: index i is contributed by a resource-level batch rule if and only if `allow` holds for resource i and the resource is not in the stated gap (function resources of wholesale-allowed catalogs; with the blanket off, system schemas of unmanaged catalogs for admins). Assumes full replies within the configured limit and "system" not managed; and, only for the resources of the request that LakeKeeper decides, that a broad grant above comes with the grant on the object and, for a select, that the two view actions agree |
| `TrinoBatchRefinement.BatchRefinesAllow` | internal/controller/embed/opapolicies/trino-check_batch.rego:42-290 | With unmanaged catalogs allowed wholesale, as the operator deploys it, the batched decision equals the per-resource one on every table, schema, catalog and user resource |
| `TrinoBatchRefinement.BatchWithoutBlanket` | internal/controller/embed/opapolicies/trino-main.rego:108-126 | With the blanket off the batch never allows more than `allow`, and for users who are no admins it allows the same |
| `TrinoBatchRefinement.HypothesesNeeded` | internal/controller/embed/opapolicies/trino-check_batch.rego:37-41 | With full replies alone, the exact condition under which batch and `allow` agree on a resource LakeKeeper decides: for a select, the view actions agree or the table grant settles it; otherwise, a broad grant above comes with a grant on the object |
| `TrinoBatchRefinement.SingleTableAllOrNothing` | internal/controller/embed/opapolicies/trino-check_batch.rego:295-319 | FilterColumns on one table with a non-empty column list: the batch is every column index when `allow` holds for the table, and empty otherwise, with the blanket on or off |
| `TrinoBatchRefinement.PathsExact` | internal/controller/embed/opapolicies/trino-check_batch.rego:137-290 | Fast path and slow path together decide a LakeKeeper resource exactly as LakeKeeper does |
| `TrinoBatchRefinement.PathsUnion` | internal/controller/embed/opapolicies/trino-check_batch.rego:137-290 | With full replies alone, fast path and slow path together allow exactly what a broad grant above covers or LakeKeeper grants on the object |
| `TrinoBatchRefinement.CoveredExact` | internal/controller/embed/opapolicies/trino-check_batch.rego:110-133 | A resource LakeKeeper decides is covered by the fast path exactly when the operation is no select and `list_everything` is granted on its warehouse or its namespace |
| `TrinoBatchRefinement.FastPathSound` | internal/controller/embed/opapolicies/trino-check_batch.rego:37-54 | What the fast path covers, LakeKeeper would allow one by one, given the inheritance below a broad grant for the resources of the request |
| `TrinoBatchRefinement.WarehouseBroadExact` | internal/controller/embed/opapolicies/trino-check_batch.rego:42-54 | A catalog is broad exactly when `list_everything` is granted on its warehouse |
| `TrinoBatchRefinement.NamespaceBroadExact` | internal/controller/embed/opapolicies/trino-check_batch.rego:61-85 | A schema is broad exactly when its catalog is not, the request mentions it, and `list_everything` is granted on its namespace |
| `TrinoBatchRefinement.SlowTablesExact` | internal/controller/embed/opapolicies/trino-check_batch.rego:154-195 | Index i is in the paired table/view result exactly when resource i goes the slow path and LakeKeeper grants the table or the view; every list, every chunk size |
| `TrinoBatchRefinement.SlowSchemasExact` | internal/controller/embed/opapolicies/trino-check_batch.rego:200-241 | The same for the schema list |
| `TrinoBatchRefinement.PairsExact` | internal/controller/embed/opapolicies/trino-check_batch.rego:186-195 | A resource index is allowed exactly when result 2k or 2k+1 of one of its entries is |
| `TrinoBatchRefinement.PairAt` | internal/controller/embed/opapolicies/trino-check_batch.rego:164-186 | Entry k of the pair list sits at positions 2k (table check) and 2k+1 (view check) |
| `TrinoBatchRefinement.RepresentativeSuffices` | internal/controller/embed/opapolicies/trino-main.rego:96-106 | One evaluation on the first resource of an unmanaged catalog decides for every resource of that catalog |
| `TrinoBatchRefinement.UnmanagedExact` | internal/controller/embed/opapolicies/trino-main.rego:96-126 | Resources outside the managed catalogs: the two batch rules together are `allow` minus the gap |
| `TrinoBatchRefinement.ManagedExact` | internal/controller/embed/opapolicies/trino-allow_table.rego:92-116 | For a resource of the request that LakeKeeper decides, `allow` is LakeKeeper's decision: no other rule adds or removes anything |
| `TrinoBatchRefinement.BatchResultsExact` | internal/controller/embed/opapolicies/lakekeeper-check.rego:177-189 | Position i of the chunked results is the answer to check i |
| `TrinoDecision.DecisionExact` | internal/controller/embed/opapolicies/trino-check_batch.rego:42-290 | The whole decision without naming any allow rule: with full replies, index i is in the batch if and only if LakeKeeper's reply to the one check of resource i (user, warehouse, namespace parts, action spelled out), a listed system name, or the blanket on unmanaged catalogs permits it |
| `TrinoDecision.UndecidedExact` | internal/controller/embed/opapolicies/trino-main.rego:74-160 | The same for what LakeKeeper does not decide object by object (system schemas, their tables, metadata tables, unmanaged catalogs), with no hypothesis about the replies |
| `TrinoDecision.SystemTableExact` | internal/controller/embed/opapolicies/trino-allow_schema.rego:97-103 | A table of a managed catalog's system schema is in the batch if and only if the user is an admin, or the table is on that schema's list and LakeKeeper allows `get_config` on the warehouse, or it grants that very table or view |
| `TrinoDecision.ColumnsExact` | internal/controller/embed/opapolicies/trino-check_batch.rego:295-319 | FilterColumns on one table, in the same terms: every column or none |
| `TrinoDecision.OtherExact` | internal/controller/embed/opapolicies/trino-main.rego:153-160 | Every other operation is decided by its own rules, resource by resource |
| `TrinoDecision.PartsExact` | internal/controller/embed/opapolicies/trino-check.rego:22-24 | The namespace of a schema name is its parts between the dots, and only those |
| `TrinoDecision.MetadataExact` | internal/controller/embed/opapolicies/trino-check.rego:144-163 | Base name and metadata tables by the eleven listed suffixes |
| `Lakekeeper.ChunkingAligned` | internal/controller/embed/opapolicies/lakekeeper-check.rego:177-189 | For every check list and every configured size (odd, zero and negative sizes included), the concatenated results equal the pointwise answers if and only if every chunk is answered in full, when no reply is longer than its request |
| `Lakekeeper.RequestsCover` | internal/controller/embed/opapolicies/lakekeeper-check.rego:180-187 | The requests are not empty, stay within the limit, and concatenate to exactly the checks in order |
| `Lakekeeper.RequestsExact` | internal/controller/embed/opapolicies/lakekeeper-check.rego:180-187 | Request k holds the checks from k times the limit on, the limit being the configured size or 1, and all but the last are full |
| `Lakekeeper.LostChunkShifts` | internal/controller/embed/opapolicies/lakekeeper-check.rego:184-189 | A failed chunk shifts the later results: the answer to the second check is reported for the first |
| `TrinoLostRequest.LostRequestInBatch` | internal/controller/embed/opapolicies/trino-check_batch.rego:164-195 | For any two different table names, with two checks per request and the first request lost, index 0 is in the batch although `allow` denies table 0, and index 1 is not although `allow` allows table 1 |
| `TrinoPolicy.BaseNameUnique` | internal/controller/embed/opapolicies/trino-check.rego:144-163 | `split_metadata_table_name` is single-valued, defined exactly on metadata tables, and its value is the name without its one suffix |
| `RowFilters.VisibleRowsExact` | internal/controller/embed/rowfilters/trino-row_filters.rego:19-108 | From custom resource to rows, over the spec's own fields: for every filter list, reply, user who is no admin, and row, the conjunction of emitted SQL is true under three-valued logic if and only if, for each spec of that catalog (or "lakekeeper"), schema and table, the user is listed for the object of the row's (non-NULL) value in the spec's column |
| `RowFilters.FailsClosed` | internal/controller/embed/rowfilters/trino-row_filters.rego:88-108 | An unknown store or a failed list-objects call leaves no row visible of a table that a spec filters |
| `RowFilters.AdminsUnfiltered` | internal/controller/embed/rowfilters/trino-row_filters.rego:19-37 | Admins see every row |
| `RowFilters.ExpressionReads` | internal/controller/embed/rowfilters/trino-row_filters.rego:39-82 | The emitted text reads back as the comparison with exactly the sorted permitted values, or, in a numeric filter, the numerals among them |
| `RowFilters.ExpressionExact` | internal/controller/embed/rowfilters/trino-row_filters.rego:39-50 | One emitted expression keeps a row exactly when the key is permitted |
| `RowFilters.ReplyOrderInvisible` | internal/controller/embed/rowfilters/trino-row_filters.rego:71-82 | Any permutation of OpenFGA's reply prints the same SQL text |
| `RowFilters.PermittedExact` | internal/controller/embed/rowfilters/trino-row_filters.rego:71-82 | A value is permitted exactly when the reply lists the object of the filter's type for it |
| `SqlText.InRoundTrip` | internal/controller/embed/rowfilters/trino-row_filters.rego:39-69 | Printing and reading an IN predicate gives back column and values for every list of values (quotes, commas, parentheses included), exactly for columns without a double quote |
| `SqlText.ReadListPrinted` | internal/controller/embed/rowfilters/trino-row_filters.rego:52-69 | A printed list of literals reads back as the same literals |
| `SqlText.ReadListSound` | internal/controller/embed/rowfilters/trino-row_filters.rego:52-69 | Whatever list the reader accepts is the printed form of what it returns |
| `SqlText.NumeralShape` | internal/controller/embed/rowfilters/trino-row_filters.rego:52-69 | A value is a numeral if and only if it is digits, with a sign and a fraction or without |
| `SqlText.DecimalExact` | internal/controller/embed/rowfilters/trino-row_filters.rego:52-69 | The value a numeral denotes, from its sign, whole digits and fraction |
| `ColumnMasks.MaskedExact` | internal/controller/embed/rowfilters/trino-column_masks.rego:18-44 | Over the spec's own fields: a column is replaced by an expression if and only if the user is no admin and some restriction on it with that expression (or NULL) lacks its grant on the named object, or the column's full name; failure counts as no grant |
| `ColumnMasks.OneMaskExact` | internal/controller/embed/rowfilters/trino-column_masks.rego:18-30 | No index gets two masks, in any batch, if and only if of every two restrictions of one column that the user lacks the masks are equal |
| `AccessSpec.RenderRowFilters` | internal/controller/opa.go:134-153 | One record per filter, field by field: catalog or "lakekeeper", relation or "viewer", numeric only when set to true, everything else as given |
| `AccessSpec.RenderColumnAccess` | internal/controller/opa.go:157-176 | The same for column restrictions, with the mask or NULL and the object or the column's full name |
| `AccessSpec.DefaultObjectInjective` | api/v1alpha1/defaults.go:299-304 | Default object ids are injective when catalog, schema and table have no dot |
| `AccessSpec.ObjectNamesOneColumn` | api/v1alpha1/defaults.go:299-304 | A default object id belongs to one column only if and only if none of the four parts has a dot |
| `AccessSpec.DotCollides` | api/v1alpha1/defaults.go:299-304 | For every column name with a dot in some part, another column with the same default object id |
| `AuthzModel.AccessAuthzTypes` | internal/controller/openfga.go:169-187 | The merge computes the canonical list of the configured type/relation pairs, whatever the entry order |
| `AuthzModel.MergeSorted` | internal/controller/openfga.go:169-187 | The merged types and their relations are sorted and free of duplicates |
| `AuthzModel.MergeExact` | internal/controller/openfga.go:169-187 | The merged list holds exactly the configured pairs |
| `AuthzModel.PairsExact` | internal/controller/openfga.go:169-187 | The configured pairs are those some filter or restriction names, with "viewer" where it names no relation |
| `AuthzModel.QueriedPairsDefined` | internal/controller/opa.go:134-176 | The desired model lets users and members of groups be given exactly the pairs that the rendered policies query, and the built-in membership |
| `AuthzModel.ModelExact` | internal/controller/authzstore.go:257-296 | What the desired model defines, spelled out: every configured relation of a type accepts "user" and "group#member", "member" of the built-in group accepts "user", and nothing else is defined |
| `AuthzModel.AuthzTypeJSON` | internal/controller/authzstore.go:278-296 | The loop fills one assignable relation per name and nothing else |
| `AuthzModel.AuthzModelJSON` | internal/controller/authzstore.go:257-276 | The model is user, group, then the types in order |
| `AuthzModel.AuthzModelShape` | internal/controller/authzstore.go:308-318 | The loop computes the shape: sorted relation names by type, later definitions replacing earlier ones |
| `AuthzModel.ShapeExact` | internal/controller/authzstore.go:301-318 | The shape of a desired model is the shape of its effective pairs: the configured ones and, unless "group" is configured, the built-in membership |
| `AuthzModel.ShapesEqualExact` | internal/controller/authzstore.go:301-318 | Two desired models match if and only if their effective pairs are equal |
| `AuthzModel.AssignableExact` | internal/controller/authzstore.go:257-318 | Under a model of the same shape written for other pairs, every configured pair can be given to users and group members if and only if a configured "group"/"member" was configured there too |
| `AuthzStore.FindAuthzStore` | internal/controller/authzstore.go:153-194 | Over the pages as answered, each at its own moment, the search returns the first live store of the name, "" when none is listed, and fails exactly when it reaches the failing page: no page before it lists a live store of the name |
| `AuthzStore.SearchExact` | internal/controller/authzstore.go:153-194 | The search is independent of how the listing is cut into pages |
| `AuthzStore.SearchFails` | internal/controller/authzstore.go:153-194 | When the search fails, over the pages |
| `AuthzStore.OpenFga.CreateStore` | internal/controller/authzstore.go:196-222 | One store appended unless refused, also when the reply is lost |
| `AuthzStore.OpenFga.EnsureAuthzStore` | internal/controller/authzstore.go:80-116 | The call changes the server as the step function says: create if absent, append a model on a shape difference or when the read of the latest model answers 404, with any fault at any request; other stores may come and go while the listing is paged; it succeeds exactly when the requests it needs are answered |
| `AuthzStore.ResultExact` | internal/controller/authzstore.go:80-116 | A call succeeds if and only if the search did not fail, the store was there or its creation was done, the read got a reply, and the latest model read had the wanted shape or the write was done; it then returns the id of the first live store, or of the new one |
| `AuthzStore.FaultFreeSucceeds` | internal/controller/authzstore.go:80-116 | A call without faults succeeds |
| `AuthzStore.OpenFga.SettleModel` | internal/controller/authzstore.go:96-116 | Reading, comparing and writing the model of a known store, with a 404 counted as no model yet |
| `AuthzStore.AuthzModelMatches` | internal/controller/authzstore.go:301-306 | The latest model matches when there is one and its shape is the desired one |
| `AuthzStore.RunExact` | internal/controller/authzstore.go:80-116 | Over any run, from no store or from one with any models, with any faults and any activity on other stores, at most one store of the name is live; its models are those it began with and then the shapes of the settled calls, where a shape equal to the one before it is written again exactly when the read answered 404 |
| `AuthzStore.ModelCountExact` | internal/controller/authzstore.go:80-116 | A fault-free run leaves exactly one live store; to the models it began with it adds one unless the first wanted shape was already the latest, and one for each change of the effective pairs between consecutive specs |
| `AuthzStore.NotFoundRepeats` | internal/controller/authzstore.go:226-239 | A run of two calls for one spec in which a 404 on the second read makes the store hold the same shape twice |
| `AuthzStore.SuccessMeansCurrent` | internal/controller/authzstore.go:80-116 | A successful call returns the live store of the name, and its latest model has the wanted shape |
| `AuthzStore.LatestAssignable` | internal/controller/authzstore.go:80-116 | After any run from no store whose last call succeeded, the latest model of the store is one that some call k wanted, and every pair the last spec's policies query can be given to users and group members under it if and only if a configured "group"/"member" was configured for call k too |
| `Membership.KeycloakGroupMembers` | internal/controller/access.go:213-228 | The subjects of the human members in order |
| `Membership.SubjectsExact` | internal/controller/access.go:213-228 | A subject is listed exactly when it is "oidc~" and the id of a member who has an id, no service account client, and no service account name |
| `Membership.AccessGroupMembers` | internal/controller/access.go:176-187 | The map from wanted group names to subjects |
| `Membership.ByGroupExact` | internal/controller/access.go:176-187 | A group name maps to the members of the last listed group of that name, and is present exactly when one is listed |
| `Membership.MembershipTuples` | internal/controller/access.go:79-97 | The tuples written are exactly those of the role assignments |
| `Membership.AlreadyDoneExact` | internal/controller/catalog.go:700-706 | A reply counts as already done for status 409, and for 400 or 422 when the body has the word "already" in any case |
| `Membership.Backends.EnsureAuthzTuples` | internal/controller/authzstore.go:120-151 | Success adds exactly the tuples (none without a store id), existing ones included; failure adds only some of them and removes none; without failing requests it succeeds |
| `Membership.Backends.EnsureAccessRoles` | internal/controller/catalog.go:243-281 | Success adds exactly the assignments of the default groups; failure only some of them; without failing requests it succeeds |
| `Membership.Backends.SyncAccess` | internal/controller/access.go:64-119 | A successful sync adds exactly the wanted assignments and, with a store id, exactly their tuples, so repeating it changes nothing; both sets only grow; without failing requests it succeeds |
| `Membership.MembershipAgrees` | internal/controller/embed/opapolicies/trino-user.rego:4-5 | The role assignment under the identity the LakeKeeper policies compute and the tuple under the identity the row-filter policies send are both wanted exactly for the human members of the group |
| `Membership.MembersExact` | internal/controller/access.go:176-228 | A prefixed user is listed for a default group exactly when the user is a human member of it in Keycloak |
| `Membership.SyncRun` | internal/controller/access.go:64-119 | Any sequence of syncs, each with its own Keycloak, store id and failures, is a run from the services before to the services after, in which both engines only gain and a successful sync gains exactly what it wanted |
| `Membership.HeldExact` | internal/controller/access.go:64-119 | From services that hold nothing, after successful syncs with a store, LakeKeeper and OpenFGA each give a user the group's rights if and only if some sync so far saw the user in the group; so the two always agree |
| `Membership.LeavingKeepsBoth` | internal/controller/access.go:64-119 | A user whom one successful sync saw in a group and a later one no longer sees there keeps the role assignment and the tuple |
| `Properties.RenderProperties` | internal/controller/trino.go:198-212 | One text for every map iteration order |
| `Properties.PropertiesRoundTrip` | internal/controller/trino.go:198-212 | Reading the lines back at the first "=" returns the map, for all keys without "=" or newline and values without newline |
| `Properties.FrameInjective` | internal/controller/apply.go:214-221 | NUL framing is injective on lists of NUL-free parts |
| `Properties.TrinoCatalogData` | internal/controller/trino.go:214-237 | The catalog files and the hash parts, reserved name skipped, in iteration order |
| `Properties.FilesIgnoreOrder` | internal/controller/trino.go:214-237 | The files are the same in every iteration order |
| `Properties.FilesNamed` | internal/controller/trino.go:214-237 | One file per catalog, named after it, and the reserved name's file is LakeKeeper's own |
| `Properties.PartsExact` | internal/controller/trino.go:226-236 | The parts that are hashed: name and content of every extra catalog, in iteration order |
| `Properties.CatalogsStableExact` | internal/controller/trino.go:214-237 | What is hashed for the catalogs is the same in every iteration order if and only if at most one extra catalog besides the reserved name is configured |
| `Properties.IterationOrder` | internal/controller/trino.go:226-236 | Go's iteration visits every key once, in any order |
| `ConfigHash.RenderTrino` | internal/controller/trino.go:40-58 | The four texts and the files of a pass are those of its setting and of some order of the extra catalogs |
| `ConfigHash.TrinoFilesNamed` | internal/controller/trino.go:214-237 | LakeKeeper's file with its properties exactly when it is on, and one file per extra catalog |
| `ConfigHash.InputDetermines` | internal/controller/trino.go:58 | With the two configuration texts equal, the hash input is equal exactly when catalog hash and access control are |
| `ConfigHash.TrinoInputExact` | internal/controller/trino.go:44-58 | With equal spec and credentials, the input of Trino's config hash is the same in every two iteration orders if and only if at most one extra catalog is configured and Trino is pointed at OPA both times or neither time |
| `ConfigHash.CoordinatorShows` | internal/controller/trino.go:94-180 | Read back from the coordinator's text: the client id and secret with OAuth2 only, the shared secret when there is one, the user's own values first |
| `ConfigHash.WorkerShows` | internal/controller/trino.go:94-119 | The workers' text shows the shared secret and no client |
| `ConfigHash.CatalogShows` | internal/controller/trino.go:239-272 | LakeKeeper's catalog file shows client and secret with an identity provider, and the object store's keys when they are static |
| `ConfigHash.UserPropertiesShow` | internal/controller/trino.go:94-119 | The user's own properties are in both texts as given |
| `ConfigHash.ChangedCredentialShows` | internal/controller/trino.go:44-58 | With one catalog order, the hash inputs of two credentials are equal if and only if everything the texts show of them is: a changed credential that is used restarts Trino, and no other does |
| `Properties.Unstable` | internal/controller/trino.go:226-236 | With two extra catalogs there are two iteration orders with different framings |
| `Cluster.Api.EnsureGeneratedSecret` | internal/controller/apply.go:260-289 | Creates the Secret only when absent; success means it exists; everything else is unchanged, no credential of the pass changes, and without failing requests it succeeds |
| `Cluster.Api.GetSecretData` | internal/controller/apply.go:291-301 | Success means the Secret has the key, and the value is the stored one; a key that is there is read unless the request fails |
| `Cluster.Api.GetAll` | internal/controller/keycloak.go:319-346 | All the listed credentials, in order, or a failure; never a failure when all are there and requests are answered |
| `Cluster.Api.EnsureOIDCSecretKeys` | internal/controller/keycloak.go:278-311 | Only adds missing client keys, with the standard ids; on success all four are there |
| `Cluster.Api.AddOIDCKeys` | internal/controller/keycloak.go:278-303 | Every key that was set keeps its value; missing ids are "opa" and "superset" |
| `Cluster.Api.ReplaceSecret` | internal/controller/trino.go:274-312 | Replaces the data of a whole Secret, and only of one that is rewritten in every pass; a failure leaves it as it was, or replaced with the reply lost |
| `Cluster.Api.MergeSecret` | internal/controller/superset.go:160-179 | Sets some keys of a Secret and leaves every other Secret as it was |
| `Cluster.Api.StoreTrino` | internal/controller/trino.go:274-312 | What is hashed for Trino is what its two Secrets hold |
| `Cluster.Api.ReplaceOIDC` | internal/controller/opa.go:55-67 | Replaces the Secret "oidc" of the namespace by the two OPA credentials and remembers where; a failure does both, with the reply lost, or neither |
| `Cluster.SoundOpa` | internal/controller/opa.go:55-67 | Writing OPA's copy keeps every other credential of the pass and takes Trino's credentials out of that Secret |
| `Cluster.SoundWrite` | internal/controller/apply.go:260-289 | Creating, adding to, or rewriting a Secret changes no credential and brings none back that was lost |
| `Cluster.Api.Outdated` | internal/controller/sampledata.go:119-125 | A seed Job of another seed, or a bucket Job that cannot write its config |
| `Cluster.Api.EnsureJob` | internal/controller/minio.go:314-382 | Ready is reported only for a succeeded Job that is not being deleted, and such a Job is left alone. Without an error an absent Job now exists for the current seed, and one that had neither finished nor was going away was deleted if and only if it was read unfinished and failed, of another seed (seed Job), or unable to write its config (bucket Job) |
| `Cluster.Api.VisitJob` | internal/controller/minio.go:314-340 | A Job that exists may go on until it is read and again until it is deleted; unless a request fails it is deleted exactly if it was read unwanted in that sense |
| `Cluster.SucceededDeletedExact` | internal/controller/minio.go:314-340 | A Job that is not going away can end up deleted and succeeded if and only if it had neither finished nor failed, and is of another seed (seed Job) or cannot write its config (bucket Job) |
| `Platform.LawOf` | internal/controller/dataplatform_controller.go:73-114 | The law of a pass: what it hashes, stores and hands to OPA is determined by spec, external credentials, readiness and the credentials it read, and stays so as it reads more |
| `Platform.DataPlatform.SetOutcome` | internal/controller/apply.go:231-239 | Sets one condition for the current generation and keeps the invariant tying conditions to the stages reached |
| `Platform.DataPlatform.ConditionTrue` | internal/controller/apply.go:241-243 | The outcome of a stage of this pass, or what an earlier pass left when the stage was not reached |
| `Foundations.ReconcilePostgres` | internal/controller/postgres.go:43-128 | One outcome, up only on a ready workload; waiting only while the embedded one starts |
| `Foundations.EnsureMinioBucket` | internal/controller/minio.go:295-382 | Up only with the bucket Job done, waiting only without it; unless it fails, the bucket Job was visited and the Secret "minio-mc" holds MinIO's address with the keys given |
| `Foundations.ReconcileMinio` | internal/controller/minio.go:108-176 | Up only with a ready MinIO and a finished bucket Job; the Secret "minio-mc" holds the keys read; it fails only when a request does, MinIO is absent, or its Secret lacks a key |
| `Foundations.ReconcileObjectStore` | internal/controller/minio.go:49-67 | Embedded storage is up only with the bucket Job done; the keys are MinIO's or the external store's, as the spec says; never failing in a smooth pass |
| `Identity.EnsureKeycloakSecrets` | internal/controller/keycloak.go:220-276 | Success means that realm key, admin and OIDC Secret exist, the last with all its clients when it was whole before; no credential changed |
| `Identity.EnsureOidcSecret` | internal/controller/keycloak.go:243-276 | A new OIDC Secret holds all clients under their standard ids; an older one only gains keys |
| `Identity.HashRealm` | internal/controller/keycloak.go:313-377 | The realm's text is the spec's, with the seven credentials read in this pass each in its place |
| `Identity.KeycloakClients` | internal/controller/keycloak.go:91-165 | The embedded configuration holds Trino's, OPA's and Superset's clients, each as read in this pass from its own keys |
| `Identity.ReconcileKeycloak` | internal/controller/keycloak.go:44-89 | Without an error the configuration is that of the clients read in this pass and the outcome is the readiness of Keycloak |
| `Identity.ReconcileAuth` | internal/controller/oidc.go:65-79 | Without an error the configuration is the embedded, the external or no provider's, as the spec says; only an embedded one ever waits |
| `Authorization.ReconcileAccessStore` | internal/controller/openfga.go:139-165 | A store id is only ever the one obtained by the store call of this pass; no call without policies or Trino |
| `Authorization.ReconcileOpenFGA` | internal/controller/openfga.go:64-134 | Up only when database and server are ready and, with access policies, the store call succeeded |
| `Authorization.ReconcileAuthz` | internal/controller/openfga.go:51-62 | Enabled exactly as the spec says unless there was an error; the OPA address is known exactly when OpenFGA's database is ready |
| `Catalog.ReconcileLakekeeper` | internal/controller/lakekeeper.go:35-69 | LakeKeeper is applied only behind a ready identity provider and OpenFGA, and is waiting otherwise |
| `Catalog.ReconcileAccessGroups` | internal/controller/access.go:64-119 | Roles, then tuples: a prefix of the plan, all of it on success, nothing without an embedded provider |
| `Catalog.CatalogCalls` | internal/controller/warehouse.go:36-81 | The calls made are a prefix of Bootstrap, Grants, Warehouse, Roles, Tuples, and all of it on success |
| `Catalog.ReconcileWarehouse` | internal/controller/warehouse.go:29-83 | Up only after the whole plan; waiting exactly without a catalog client |
| `Catalog.ReconcileLakekeeperStack` | internal/controller/dataplatform_controller.go:129-176 | The warehouse stage is reached exactly behind five ready gates, progressing is exact, and the remote calls of the pass are legal |
| `Catalog.LakekeeperDisabled` | internal/controller/dataplatform_controller.go:117-127 | Five conditions are set, and the identity provider's exactly when auth is disabled |
| `TrinoStack.ReconcileOPA` | internal/controller/opa.go:35-67 | Nothing without OpenFGA or an identity provider; else the Secret "oidc" next to OpenFGA is replaced by the client id and secret of the OPA client, and by nothing else |
| `TrinoStack.TrinoTexts` | internal/controller/trino.go:40-58 | What is hashed and stored for Trino is a function of spec, credentials, OPA address and catalog order, as the pass's law says |
| `TrinoStack.ReconcileTrino` | internal/controller/trino.go:40-92 | One outcome, waiting only while Trino starts, internal secret generated once; never failing in a smooth pass |
| `TrinoStack.ReconcileTrinoStack` | internal/controller/dataplatform_controller.go:178-195 | An error before Trino is reached leaves its condition untouched |
| `SupersetStack.ReconcileSuperset` | internal/controller/superset.go:58-124 | One outcome, waiting only while database, Redis or Superset starts; unless it fails, Superset's Secret holds its own and Trino's client |
| `SupersetStack.ReconcileSupersetStack` | internal/controller/superset.go:42-56 | Reached without an error; an error at the namespace leaves the condition untouched |
| `Seeding.ReconcileSampleData` | internal/controller/sampledata.go:43-101 | With seeding enabled, up only with warehouse and Trino conditions True, possibly stale ones, and the seed Job done; waiting only when one of the three was missing before |
| `Seeding.SeedSampleData` | internal/controller/sampledata.go:103-218 | A new seed Job is created only with Keycloak's admin password in its Secret when Trino wants OAuth2; unless it fails the Job was visited |
| `Reconciler.ReadyExact` | internal/controller/dataplatform_controller.go:73-176 | Whatever stale conditions earlier passes left: after an error-free pass all stages were up if and only if all nine conditions are True (all but AuthReady with LakeKeeper disabled), and then all carry the current generation |
| `Reconciler.Reconcile` | internal/controller/dataplatform_controller.go:73-114 | One pass from any state: credentials, OPA's copy and Jobs treated lawfully; every stage that did not fail has its generated Secrets and its hash, and Trino's configuration is stored as it was hashed; calls legal; Ready True if and only if there was no error and all required conditions are True, which then are current and rest on ready workloads. No error is swallowed, a smooth pass ends without one, and a calm one is Ready |
| `Runs.Run` | internal/controller/dataplatform_controller.go:57-71 | Any number of passes with arbitrary spec edits, readiness and Job changes in between is a lawful history |
| `Runs.CredentialsNeverChange` | internal/controller/apply.go:260-289 | Over any history a key of a generated Secret never changes once set; for the OIDC Secret in namespaces in which no pass wrote OPA's copy |
| `Runs.OidcKeptExact` | internal/controller/opa.go:55-67 | Keycloak's Secret keeps every key from pass i through pass j if and only if no pass between wrote OPA's copy into its namespace |
| `Runs.WritesExact` | internal/controller/opa.go:35-67 | Where a pass writes OPA's copy is decided by its spec: only next to OpenFGA, only with Trino, LakeKeeper, identity and authorization on, and then in every error-free pass |
| `Runs.OpaCopyExact` | internal/controller/opa.go:55-67 | For every namespace a pass wrote OPA's copy to, the Secret "oidc" there holds exactly a client id and a secret: OPA's own as Keycloak's Secret has them, with the embedded provider in another namespace, and the external client's otherwise |
| `Runs.OpaCopyStays` | internal/controller/opa.go:55-67 | And both Secrets hold the same OPA client until a pass writes OPA's copy into one of the two namespaces |
| `Runs.SharedNamespaceLoses` | internal/controller/opa.go:55-67 | With OpenFGA in Keycloak's namespace every error-free pass that writes OPA's copy loses Trino's credentials |
| `Runs.SharedNamespaceBlocks` | internal/controller/keycloak.go:313-330 | After such a pass every later pass with the identity provider there fails and is not Ready |
| `Runs.SmoothPassesSucceed` | internal/controller/dataplatform_controller.go:73-114 | The operator never gets stuck: from whole Secrets on, or none, every pass succeeds whose requests are answered and whose workloads are there, under a supported spec and with Keycloak where no pass wrote OPA's copy; and it is Ready when the workloads are and the Jobs are done |
| `Runs.NoErrorSwallowed` | internal/controller/dataplatform_controller.go:73-114 | A pass in which any request failed ends with an error and is not Ready |
| `Runs.ReadyProvides` | internal/controller/apply.go:260-289 | A Ready platform has every generated Secret its spec asks for, Secret by Secret |
| `Runs.TrinoStored` | internal/controller/trino.go:274-312 | Whenever the Trino stage did not fail, its two Secrets hold the texts that were hashed, each under its key, and all catalog files |
| `Runs.LostStaysLost` | internal/controller/keycloak.go:278-311 | Trino's credentials, once lost from Keycloak's Secret, never come back |
| `Runs.SameCredentialLater` | internal/controller/apply.go:260-301 | Two passes that read one protected credential, given by namespace, Secret and key, read the same value |
| `Restarts.TrinoStableExact` | internal/controller/trino.go:44-58 | With spec and external credentials unchanged, any two passes that render Trino hash the same input in every iteration order if and only if at most one extra catalog besides the reserved name is configured and OpenFGA's database was ready in both or in neither; OIDC client, object store and internal credentials included |
| `Restarts.TrinoNotRestarted` | internal/controller/trino.go:58 | Then the two hashes the passes really wrote were computed from one input |
| `Restarts.TrinoTextShows` | internal/controller/trino.go:44-58 | Read back from the texts a pass hashed: on the coordinator the client of Keycloak's Secret or the external one exactly when the spec wants OAuth2, on the workers none, and the shared secret of its Secret on both |
| `Restarts.CatalogFileShows` | internal/controller/trino.go:214-272 | Read back from LakeKeeper's catalog file: the client and the object store's keys that the Secrets hold, or the external ones, as the spec wants them |
| `Restarts.AccessControlShown` | internal/controller/trino.go:53-57 | Trino is pointed at OPA if and only if the spec wants LakeKeeper, identity and authorization and OpenFGA's database is ready |
| `Restarts.RealmShows` | internal/controller/keycloak.go:313-377 | The realm that was hashed is the spec's with the credentials the Secrets hold, each in its place |
| `Restarts.KeycloakSupersetStable` | internal/controller/superset.go:466-595 | With the spec unchanged, any two passes that render the realm, or Superset's configuration, hash the same text |
| `Restarts.SameCredentials` | internal/controller/trino.go:240-272 | All credentials in Trino's texts are the same in any two such passes |
| `Runs.DoneStaysDone` | internal/controller/minio.go:314-382 | A succeeded Job is still there, done, with the seed it was created for, after every later pass |
| `Runs.DeletionsJustified` | internal/controller/sampledata.go:110-204 | For every Job a pass deleted there is the state it had when it was read: not finished, not going away, and failed, of another seed (seed Job), or unable to write its config (bucket Job); it came from the state before the pass and led to the one after it, and one that had failed has not succeeded since |
| `Runs.SucceededJobDeletedExact` | internal/controller/sampledata.go:110-128 | A lawful pass can delete a Job that has succeeded if and only if it had neither finished nor failed when the pass began, and is of another seed (seed Job) or cannot write its config (bucket Job) |
| `Runs.SeedOrigin` | internal/controller/sampledata.go:180-192 | A Job that was not there before carries the seed hash of the pass that created it |
| `Runs.SampleDataCurrent` | internal/controller/sampledata.go:110-128 | Sample data reported ready rests on the current seed if and only if the current seed is that of the pass that created the Job |
| `Runs.CallsGuarded` | internal/controller/dataplatform_controller.go:154-175 | Catalog calls happen only in passes that found Postgres, object store, identity, OpenFGA and LakeKeeper ready, and grants, roles and tuples only under a spec with the embedded provider; LakeKeeper is applied only with identity and OpenFGA ready |
| `Runs.WarehouseUpCalls` | internal/controller/warehouse.go:36-81 | A pass in which the warehouse became ready applied and bootstrapped LakeKeeper and ensured the warehouse, and granted and assigned roles if and only if the provider is the embedded one |
| `Runs.TupleWritingPass` | internal/controller/access.go:101-116 | A pass that writes tuples into a store obtained that store itself, under a spec with the embedded provider, and made exactly seven calls in one order |
| `Seed.SplitStatements` | internal/controller/sampledata.go:357-373 | The line loop computes the statement list of the file |
| `Seed.SplitterRoundTrip` | internal/controller/sampledata.go:357-373 | For every comment and every list of plain multi-line statements laid out with lone semicolons, the splitter recovers exactly the statements |
| `Seed.BlockFirst` | internal/controller/sampledata.go:364-369 | The first statement recovered is the whole first block if and only if its first line does not close it, no later line is skipped or closes it, and its text does not end in white space; otherwise it comes out shorter |
| `SampleDataSplit.SampleDataSplits` | internal/controller/sampledata.go:231-275 | For all catalog and schema names the seed script recovers exactly the five statements of the operator's file if and only if the qualified name fits: it ends in neither white space nor a semicolon, its line breaks are line feeds, its first line does not end in a semicolon, and none of its other lines is blank, a comment or ends in one |
| `SampleDataSplit.OneLineFits` | internal/controller/sampledata.go:231-275 | A name of one line fits if and only if the schema is empty or ends in neither white space nor a semicolon |
| `SampleDataSplit.SemicolonLost` | internal/controller/sampledata.go:231-275 | On the operator's file, a semicolon at the end of the schema name is lost from the schema statement |
| `SampleDataSplit.SchemaLost` | internal/controller/sampledata.go:364-369 | On the operator's file, with every name that does not fit the first statement recovered is not the schema statement |
| `SampleDataReader.CreateRead` | internal/controller/sampledata.go:231-262 | The text of a table's statement reads back as: create this table with these columns unless it exists |
| `SampleDataReader.InsertRead` | internal/controller/sampledata.go:246-275 | The text of an insertion reads back as: these rows for these columns of this table, unless it has rows |
| `SampleDataRun.TextMeans` | internal/controller/sampledata.go:231-275 | Reading a statement's text and doing what it says has the effect of the statement, on every database |
| `SampleDataRun.FullRun` | internal/controller/sampledata.go:231-275 | One full run gives both tables their rows if they had none and changes nothing else |
| `SampleDataRun.SeedingSurvivesCrashes` | internal/controller/sampledata.go:375-377 | Any number of runs cut after any statement, then one full run, leaves exactly the four seed rows in each table that had none, and every other row and table as it was |
| `SampleDataRun.FileSeeds` | internal/controller/sampledata.go:231-275 | From file to rows: with a name that fits, reading and running what the script recovers from the operator's file, after any crashed runs, seeds both tables |

## Left out

- Membership.Backends.EnsureAccessRoles: only the assignees of each role, not the role, server, project and warehouse grants or the principals' display names.
- AuthzStore.OpenFga.EnsureAuthzStore: the live stores of the wanted name are listed as they are, and no one else creates or deletes one during the call; all other stores may change.
- Restarts.TrinoStableExact: credentials of an external provider or object store are the user's and are compared, not proved constant; the properties that hold no credential are data of the spec.
- Restarts.KeycloakSupersetStable: the realm and Superset's configuration are opaque functions of spec and credentials.
- Cluster.Api.EnsureGeneratedSecret: the new value is drawn before the existence check where some callers draw it after, so the model can fail more often than the code.
- Consecutive API requests with the same error handling are one request in the stages, and requests whose effect is not modelled are only a possible failure.
- Foundations.EnsureMinioBucket: the path escape of the two keys, which changes nothing in generated ones.
- Identity.ReconcileAuth: the operator's and the user interface's own clients, which are only read; the external ones come resolved, with Superset's.
- Runs.SmoothPassesSucceed: nobody else creates Secrets between the passes, and a key that is missing from an existing Secret is the user's to repair.
- Runs.NoErrorSwallowed: the operator also deletes the ConfigMap in which older versions kept Trino's configuration, and ignores the answer.
- SampleDataRun.TextMeans: columns of a table that exists already are not compared with the insertion's.
- `allow` rules of the operations without batch handling: one arbitrary oracle; the `allow_managed` extension point is unset.
- Configured catalogs are a map by name: two entries with one name are not modelled.
- A fractional `max_batch_check_size`, and OPA's HTTP cache and timing.
- HTTP, port forwarding, the service proxy, token fetching and JSON encoding: records are passed instead.
- Pod, Service, StatefulSet and Deployment bodies, the realm JSON, key generation and SHA-256: no invariant beyond copying, or opaque.
- Condition reasons and messages, requeue delays, and the status patch with its conflicts.
- Superset's generated configuration, and the HTTP and token parts of the seed script.
- The readiness of the OPA Deployment, which the operator discards: Ready does not imply it.
- Whether Trino points at OPA in every pass: an early return renders a configuration without it.
- CRDs, the Helm chart, scripts, generated code and the manager's start-up: no core logic.

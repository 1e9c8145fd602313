/** The texts whose hashes restart Trino, Keycloak and Superset. A hash is written on a
    workload's pod template, so the workload restarts exactly when its hash changes. */
module ConfigHash {
  import opened Properties
  import Order

  // --- Trino ---

  const CLIENT_ID := "http-server.authentication.oauth2.client-id"
  const CLIENT_SECRET := "http-server.authentication.oauth2.client-secret"
  const SHARED_SECRET := "internal-communication.shared-secret"
  const CATALOG_CREDENTIAL := "iceberg.rest-catalog.oauth2.credential"
  const S3_ACCESS_KEY := "s3.aws-access-key"
  const S3_SECRET_KEY := "s3.aws-secret-key"

  /** What the spec alone says about Trino: properties without a credential in them, the
      user's own ones, and which credentials are used. */
  datatype TrinoSpec = TrinoSpec(
    coordinator: map<string, string>, worker: map<string, string>, oauth: map<string, string>,
    catalog: map<string, string>, policies: map<string, string>,
    extraConfig: map<string, string>, extraCatalogs: map<string, string>)

  datatype Uses = Uses(lakekeeper: bool, oidc: bool, oauth: bool, staticKeys: bool)

  datatype Credentials = Credentials(
    clientId: string, clientSecret: string, accessKey: string, secretKey: string, sharedSecret: string)

  function SharedProps(c: Credentials): map<string, string> {
    if c.sharedSecret == "" then map[] else map[SHARED_SECRET := c.sharedSecret]
  }

  /** `trinoConfigProperties` for the coordinator; the user's properties override. */
  function CoordinatorProps(t: TrinoSpec, u: Uses, c: Credentials): map<string, string> {
    t.coordinator
    + (if u.oauth then t.oauth + map[CLIENT_ID := c.clientId, CLIENT_SECRET := c.clientSecret] else map[])
    + SharedProps(c)
    + t.extraConfig
  }

  /** `trinoConfigProperties` for the workers, which know no OAuth2. */
  function WorkerProps(t: TrinoSpec, c: Credentials): map<string, string> {
    t.worker + SharedProps(c) + t.extraConfig
  }

  /** `lakekeeperCatalogProperties`. */
  function CatalogProps(t: TrinoSpec, u: Uses, c: Credentials): map<string, string> {
    t.catalog + ClientLayer(u, c) + KeysLayer(u, c)
  }

  function ClientLayer(u: Uses, c: Credentials): map<string, string> {
    if u.oidc then map[CATALOG_CREDENTIAL := c.clientId + ":" + c.clientSecret] else map[]
  }

  function KeysLayer(u: Uses, c: Credentials): map<string, string> {
    if u.staticKeys then map[S3_ACCESS_KEY := c.accessKey, S3_SECRET_KEY := c.secretKey] else map[]
  }

  /** `trinoAccessControlProperties`: nothing while Trino is not pointed at OPA. */
  function AccessControlProps(t: TrinoSpec): map<string, string> {
    map["access-control.name" := "opa"] + t.policies
  }

  function AccessControl(t: TrinoSpec, opa: bool): string {
    if opa then Text(AccessControlProps(t)) else ""
  }

  function OwnCatalog(s: Setting): seq<string> {
    if s.uses.lakekeeper then [Text(CatalogProps(s.spec, s.uses, s.credentials))] else []
  }

  /** The four texts that are hashed together, the catalogs after a hash of their own. */
  datatype TrinoTexts = TrinoTexts(coordinator: string, worker: string, catalogs: string, accessControl: string)

  /** Everything the texts depend on, except the order of the extra catalogs. */
  datatype Setting = Setting(spec: TrinoSpec, uses: Uses, credentials: Credentials, opa: bool)

  function TrinoTextsOf(s: Setting, order: seq<string>): TrinoTexts {
    TrinoTexts(Text(CoordinatorProps(s.spec, s.uses, s.credentials)), Text(WorkerProps(s.spec, s.credentials)),
               CatalogFrame(OwnCatalog(s), order, s.spec.extraCatalogs), AccessControl(s.spec, s.opa))
  }

  /** The catalog files, whatever the order of the extra catalogs. */
  function TrinoFiles(s: Setting): map<string, string> {
    var own := if s.uses.lakekeeper then Text(CatalogProps(s.spec, s.uses, s.credentials)) else "";
    Files(OwnFile(own, s.uses.lakekeeper), Order.SortSet(s.spec.extraCatalogs.Keys), s.spec.extraCatalogs)
  }

  /** One file for every catalog, named after it, and LakeKeeper's own with its properties. */
  lemma TrinoFilesNamed(s: Setting)
    ensures var files, extra := TrinoFiles(s), s.spec.extraCatalogs;
            && ("lakekeeper.properties" in files <==> s.uses.lakekeeper)
            && (s.uses.lakekeeper ==>
                  files["lakekeeper.properties"] == Text(CatalogProps(s.spec, s.uses, s.credentials)))
            && (forall n | n in extra && n != "lakekeeper" ::
                  n + ".properties" in files && files[n + ".properties"] == extra[n])
  {
    var own := if s.uses.lakekeeper then Text(CatalogProps(s.spec, s.uses, s.credentials)) else "";
    Order.SortSetSorts(s.spec.extraCatalogs.Keys);
    FilesNamed(own, s.uses.lakekeeper, Order.SortSet(s.spec.extraCatalogs.Keys), s.spec.extraCatalogs);
  }

  type Digest = string -> string

  /** What the config hash is computed from. */
  ghost function TrinoInput(digest: Digest, t: TrinoTexts): string {
    Frame([t.coordinator, t.worker, digest(t.catalogs), t.accessControl])
  }

  method Render(props: map<string, string>) returns (text: string)
    ensures text == Text(props)
  {
    var order := IterationOrder(props);
    text := RenderProperties(props, order);
  }

  /** The texts of one pass; Go chooses the order of the catalogs. */
  method RenderTrino(s: Setting) returns (texts: TrinoTexts, files: map<string, string>, ghost order: seq<string>)
    ensures Enumerates(order, s.spec.extraCatalogs)
    ensures texts == TrinoTextsOf(s, order) && files == TrinoFiles(s)
  {
    var t, u, c := s.spec, s.uses, s.credentials;
    var coordinator := Render(CoordinatorProps(t, u, c));
    var worker := Render(WorkerProps(t, c));
    var own := "";
    if u.lakekeeper {
      own := Render(CatalogProps(t, u, c));
    }
    var iteration := IterationOrder(t.extraCatalogs);
    var parts;
    files, parts := TrinoCatalogData(own, u.lakekeeper, t.extraCatalogs, iteration);
    Order.SortSetSorts(t.extraCatalogs.Keys);
    FilesIgnoreOrder(OwnFile(own, u.lakekeeper), iteration, Order.SortSet(t.extraCatalogs.Keys), t.extraCatalogs);
    var accessControl := "";
    if s.opa {
      accessControl := Render(AccessControlProps(t));
    }
    order := iteration;
    assert parts == OwnCatalog(s) + ExtraParts(order, t.extraCatalogs);
    texts := TrinoTexts(coordinator, worker, Frame(parts), accessControl);
  }

  // --- When the input is the same ---

  lemma FrameOfFour(a: string, b: string, c: string, d: string)
    ensures Frame([a, b, c, d]) == a + [NUL] + b + [NUL] + c + [NUL] + d + [NUL]
  {
    var parts := [a, b, c, d];
    assert parts[1..] == [b, c, d] && [b, c, d][1..] == [c, d] && [c, d][1..] == [d] && [d][1..] == [];
    assert Frame([d]) == d + [NUL] && Frame([c, d]) == c + [NUL] + Frame([d]);
    assert Frame([b, c, d]) == b + [NUL] + Frame([c, d]) && Frame(parts) == a + [NUL] + Frame([b, c, d]);
  }

  /** With the first two texts equal, the input is the same only if catalog hash and access
      control are the same, when the hash has no NUL. */
  lemma InputDetermines(digest: Digest, s: TrinoTexts, t: TrinoTexts)
    requires s.coordinator == t.coordinator && s.worker == t.worker
    requires NUL !in digest(s.catalogs) && NUL !in digest(t.catalogs)
    ensures TrinoInput(digest, s) == TrinoInput(digest, t)
            <==> digest(s.catalogs) == digest(t.catalogs) && s.accessControl == t.accessControl
  {
    FrameOfFour(s.coordinator, s.worker, digest(s.catalogs), s.accessControl);
    FrameOfFour(t.coordinator, t.worker, digest(t.catalogs), t.accessControl);
    if TrinoInput(digest, s) == TrinoInput(digest, t) {
      var head := s.coordinator + [NUL] + s.worker + [NUL];
      var a, b := s.accessControl + [NUL], t.accessControl + [NUL];
      assert TrinoInput(digest, s) == head + (digest(s.catalogs) + [NUL] + a);
      assert TrinoInput(digest, t) == head + (digest(t.catalogs) + [NUL] + b);
      assert TrinoInput(digest, s)[|head|..] == digest(s.catalogs) + [NUL] + a;
      assert TrinoInput(digest, t)[|head|..] == digest(t.catalogs) + [NUL] + b;
      IndexOfAppend(digest(s.catalogs), NUL, a);
      IndexOfAppend(digest(t.catalogs), NUL, b);
      CancelHead(digest(s.catalogs) + [NUL], a, digest(t.catalogs) + [NUL], b);
      assert digest(s.catalogs) == (digest(s.catalogs) + [NUL])[..|digest(s.catalogs)|];
      assert s.accessControl == a[..|a| - 1] && t.accessControl == b[..|b| - 1];
    }
  }

  lemma CancelHead(a: string, x: string, b: string, y: string)
    requires a + x == b + y && |a| == |b|
    ensures a == b && x == y
  {
    assert a == (a + x)[..|a|] && b == (b + y)[..|b|];
    assert x == (a + x)[|a|..] && y == (b + y)[|b|..];
  }

  /** The digest is printable, and tells the framings of these catalogs apart; no extra
      catalog contains a NUL. */
  ghost predicate Tells(digest: Digest, s: Setting) {
    var own, extra := OwnCatalog(s), s.spec.extraCatalogs;
    && (forall text :: NUL !in digest(text))
    && (forall k | k in extra :: NUL !in k && NUL !in extra[k])
    && forall a, b | Enumerates(a, extra) && Enumerates(b, extra) ::
         digest(CatalogFrame(own, a, extra)) == digest(CatalogFrame(own, b, extra))
         ==> CatalogFrame(own, a, extra) == CatalogFrame(own, b, extra)
  }

  lemma AccessControlShows(t: TrinoSpec)
    ensures AccessControl(t, true) != AccessControl(t, false)
  {
    TextNotEmpty(AccessControlProps(t), "access-control.name");
  }

  /** Whatever orders Go picks in two settings, the hashes are computed from one input. */
  ghost predicate OneInput(digest: Digest, s: Setting, s': Setting) {
    forall a, b | Enumerates(a, s.spec.extraCatalogs) && Enumerates(b, s'.spec.extraCatalogs) ::
      TrinoInput(digest, TrinoTextsOf(s, a)) == TrinoInput(digest, TrinoTextsOf(s', b))
  }

  lemma PairInput(digest: Digest, s: Setting, opa: bool, a: seq<string>, b: seq<string>)
    requires Tells(digest, s)
    requires Enumerates(a, s.spec.extraCatalogs) && Enumerates(b, s.spec.extraCatalogs)
    ensures var own, extra := OwnCatalog(s), s.spec.extraCatalogs;
            TrinoInput(digest, TrinoTextsOf(s, a)) == TrinoInput(digest, TrinoTextsOf(s.(opa := opa), b))
            <==> CatalogFrame(own, a, extra) == CatalogFrame(own, b, extra) && s.opa == opa
  {
    AccessControlShows(s.spec);
    InputDetermines(digest, TrinoTextsOf(s, a), TrinoTextsOf(s.(opa := opa), b));
  }

  /** With the same spec and credentials, Trino's input is the same in every two iteration
      orders if and only if at most one extra catalog is configured besides the reserved
      name and Trino is pointed at OPA either both times or neither time. */
  lemma TrinoInputExact(digest: Digest, s: Setting, opa: bool)
    requires Tells(digest, s)
    ensures OneInput(digest, s, s.(opa := opa)) <==> AtMostOneCatalog(s.spec.extraCatalogs) && s.opa == opa
  {
    var extra, own := s.spec.extraCatalogs, OwnCatalog(s);
    CatalogsStableExact(own, extra);
    if AtMostOneCatalog(extra) && s.opa == opa {
      forall a, b | Enumerates(a, extra) && Enumerates(b, extra)
        ensures TrinoInput(digest, TrinoTextsOf(s, a)) == TrinoInput(digest, TrinoTextsOf(s.(opa := opa), b))
      {
        PairInput(digest, s, opa, a, b);
      }
    } else if s.opa != opa {
      var order := Keys(extra);
      PairInput(digest, s, opa, order, order);
    } else {
      var a, b :| Enumerates(a, extra) && Enumerates(b, extra)
                  && CatalogFrame(own, a, extra) != CatalogFrame(own, b, extra);
      PairInput(digest, s, opa, a, b);
    }
  }

  // --- The credentials in the texts ---

  /** The spec's own properties hold no credential. */
  ghost predicate NoCredentials(t: TrinoSpec) {
    forall k | k in {CLIENT_ID, CLIENT_SECRET, SHARED_SECRET, CATALOG_CREDENTIAL, S3_ACCESS_KEY, S3_SECRET_KEY} ::
      k !in t.coordinator && k !in t.worker && k !in t.oauth && k !in t.catalog
  }

  lemma CredentialKeys()
    ensures CLIENT_ID != CLIENT_SECRET && CLIENT_ID != SHARED_SECRET && CLIENT_SECRET != SHARED_SECRET
    ensures S3_ACCESS_KEY != S3_SECRET_KEY
    ensures CATALOG_CREDENTIAL != S3_ACCESS_KEY && CATALOG_CREDENTIAL != S3_SECRET_KEY
  {
    assert |CLIENT_ID| == 43 && |CLIENT_SECRET| == 47 && |SHARED_SECRET| == 36;
    assert |CATALOG_CREDENTIAL| == 38 && |S3_ACCESS_KEY| == 17 && |S3_SECRET_KEY| == 17;
    assert S3_ACCESS_KEY[7] == 'a' && S3_SECRET_KEY[7] == 's';
  }

  /** The key is in the map read back exactly when the user gives it or it is on, with the
      user's value first. */
  ghost predicate Shows(read: map<string, string>, extra: map<string, string>, key: string, value: string, on: bool) {
    && (key in extra ==> key in read && read[key] == extra[key])
    && (key !in extra ==> (key in read <==> on) && (on ==> read[key] == value))
  }

  /** Layers of properties: a key that only the second and third can have. */
  lemma LayerShows(base: map<string, string>, second: map<string, string>, third: map<string, string>,
                   extra: map<string, string>, key: string)
    requires key !in base
    ensures var all := base + second + third + extra;
            Shows(all, extra, key, if key in third then third[key] else if key in second then second[key] else "",
                  key in second || key in third)
  {
  }

  function OauthLayer(t: TrinoSpec, u: Uses, c: Credentials): map<string, string> {
    if u.oauth then t.oauth + map[CLIENT_ID := c.clientId, CLIENT_SECRET := c.clientSecret] else map[]
  }

  lemma OauthLayerHas(t: TrinoSpec, u: Uses, c: Credentials)
    requires NoCredentials(t)
    ensures var layer := OauthLayer(t, u, c);
            && (CLIENT_ID in layer <==> u.oauth) && (u.oauth ==> layer[CLIENT_ID] == c.clientId)
            && (CLIENT_SECRET in layer <==> u.oauth) && (u.oauth ==> layer[CLIENT_SECRET] == c.clientSecret)
            && SHARED_SECRET !in layer
  {
    CredentialKeys();
  }

  lemma SharedLayerHas(c: Credentials)
    ensures CLIENT_ID !in SharedProps(c) && CLIENT_SECRET !in SharedProps(c)
    ensures SHARED_SECRET in SharedProps(c) <==> c.sharedSecret != ""
    ensures c.sharedSecret != "" ==> SharedProps(c)[SHARED_SECRET] == c.sharedSecret
  {
    CredentialKeys();
  }

  /** What the coordinator's text says under a key, unless the user's own properties say
      something else: the client only with OAuth2, the shared secret when there is one. */
  lemma CoordinatorShows(t: TrinoSpec, u: Uses, c: Credentials)
    requires NoCredentials(t) && Printable(CoordinatorProps(t, u, c))
    ensures var read := Read(Text(CoordinatorProps(t, u, c)));
            && Shows(read, t.extraConfig, "http-server.authentication.oauth2.client-id", c.clientId, u.oauth)
            && Shows(read, t.extraConfig, "http-server.authentication.oauth2.client-secret", c.clientSecret, u.oauth)
            && Shows(read, t.extraConfig, "internal-communication.shared-secret", c.sharedSecret, c.sharedSecret != "")
  {
    var oauth, shared := OauthLayer(t, u, c), SharedProps(c);
    PropertiesRoundTrip(CoordinatorProps(t, u, c));
    assert CoordinatorProps(t, u, c) == t.coordinator + oauth + shared + t.extraConfig;
    OauthLayerHas(t, u, c);
    SharedLayerHas(c);
    LayerShows(t.coordinator, oauth, shared, t.extraConfig, CLIENT_ID);
    LayerShows(t.coordinator, oauth, shared, t.extraConfig, CLIENT_SECRET);
    LayerShows(t.coordinator, oauth, shared, t.extraConfig, SHARED_SECRET);
  }

  /** The workers know the shared secret and no client. */
  lemma WorkerShows(t: TrinoSpec, c: Credentials)
    requires NoCredentials(t) && Printable(WorkerProps(t, c))
    ensures var read := Read(Text(WorkerProps(t, c)));
            && Shows(read, t.extraConfig, "http-server.authentication.oauth2.client-id", "", false)
            && Shows(read, t.extraConfig, "http-server.authentication.oauth2.client-secret", "", false)
            && Shows(read, t.extraConfig, "internal-communication.shared-secret", c.sharedSecret, c.sharedSecret != "")
  {
    PropertiesRoundTrip(WorkerProps(t, c));
    SharedLayerHas(c);
    LastShows(t.worker, SharedProps(c), t.extraConfig, CLIENT_ID);
    LastShows(t.worker, SharedProps(c), t.extraConfig, CLIENT_SECRET);
    LastShows(t.worker, SharedProps(c), t.extraConfig, SHARED_SECRET);
  }

  lemma LastShows(base: map<string, string>, last: map<string, string>, extra: map<string, string>, key: string)
    requires key !in base
    ensures Shows(base + last + extra, extra, key, if key in last then last[key] else "", key in last)
  {
  }

  /** LakeKeeper's catalog file: client and secret with a colon between them, and the keys of
      the object store when they are static. */
  lemma CatalogShows(t: TrinoSpec, u: Uses, c: Credentials)
    requires NoCredentials(t) && Printable(CatalogProps(t, u, c))
    ensures var read := Read(Text(CatalogProps(t, u, c)));
            && Shows(read, map[], "iceberg.rest-catalog.oauth2.credential", c.clientId + ":" + c.clientSecret, u.oidc)
            && Shows(read, map[], "s3.aws-access-key", c.accessKey, u.staticKeys)
            && Shows(read, map[], "s3.aws-secret-key", c.secretKey, u.staticKeys)
  {
    var client, keys := ClientLayer(u, c), KeysLayer(u, c);
    PropertiesRoundTrip(CatalogProps(t, u, c));
    assert CatalogProps(t, u, c) == t.catalog + client + keys;
    CatalogLayersHave(u, c);
    TwoLayersShow(t.catalog, client, keys, CATALOG_CREDENTIAL);
    TwoLayersShow(t.catalog, client, keys, S3_ACCESS_KEY);
    TwoLayersShow(t.catalog, client, keys, S3_SECRET_KEY);
  }

  lemma CatalogLayersHave(u: Uses, c: Credentials)
    ensures var client := ClientLayer(u, c);
            && S3_ACCESS_KEY !in client && S3_SECRET_KEY !in client && (CATALOG_CREDENTIAL in client <==> u.oidc)
            && (u.oidc ==> client[CATALOG_CREDENTIAL] == c.clientId + ":" + c.clientSecret)
    ensures var keys := KeysLayer(u, c);
            && CATALOG_CREDENTIAL !in keys
            && (S3_ACCESS_KEY in keys <==> u.staticKeys) && (S3_SECRET_KEY in keys <==> u.staticKeys)
            && (u.staticKeys ==> keys[S3_ACCESS_KEY] == c.accessKey && keys[S3_SECRET_KEY] == c.secretKey)
  {
    CredentialKeys();
  }

  lemma TwoLayersShow(base: map<string, string>, second: map<string, string>, third: map<string, string>, key: string)
    requires key !in base
    ensures Shows(base + second + third, map[], key,
                  if key in third then third[key] else if key in second then second[key] else "",
                  key in second || key in third)
  {
  }

  /** The user's own properties are in both configurations as given. */
  lemma UserPropertiesShow(t: TrinoSpec, u: Uses, c: Credentials, k: string)
    requires Printable(CoordinatorProps(t, u, c)) && Printable(WorkerProps(t, c)) && k in t.extraConfig
    ensures k in Read(Text(CoordinatorProps(t, u, c))) && k in Read(Text(WorkerProps(t, c)))
    ensures Read(Text(CoordinatorProps(t, u, c)))[k] == Read(Text(WorkerProps(t, c)))[k] == t.extraConfig[k]
  {
    PropertiesRoundTrip(CoordinatorProps(t, u, c));
    PropertiesRoundTrip(WorkerProps(t, c));
  }

  // --- A changed credential changes the input ---

  /** Every credential that shows in the texts is the same: the client with OAuth2, the shared
      secret, the catalog's credential with an identity provider, the static keys. */
  ghost predicate SameShown(s: Setting, c: Credentials, d: Credentials) {
    var u, extra := s.uses, s.spec.extraConfig;
    && (u.oauth && CLIENT_ID !in extra ==> c.clientId == d.clientId)
    && (u.oauth && CLIENT_SECRET !in extra ==> c.clientSecret == d.clientSecret)
    && (SHARED_SECRET !in extra ==> c.sharedSecret == d.sharedSecret)
    && (u.lakekeeper && u.oidc ==> c.clientId + ":" + c.clientSecret == d.clientId + ":" + d.clientSecret)
    && (u.lakekeeper && u.staticKeys ==> c.accessKey == d.accessKey && c.secretKey == d.secretKey)
  }

  /** All texts can be read back, and framed. */
  ghost predicate Readable(digest: Digest, s: Setting, order: seq<string>) {
    var t, u, c := s.spec, s.uses, s.credentials;
    && NoCredentials(t) && Printable(CoordinatorProps(t, u, c)) && Printable(WorkerProps(t, c))
    && Printable(CatalogProps(t, u, c))
    && var texts := TrinoTextsOf(s, order);
       && NulFree([texts.coordinator, texts.worker, digest(texts.catalogs), texts.accessControl])
       && NulFree(OwnCatalog(s) + ExtraParts(order, t.extraCatalogs))
  }

  lemma CoordinatorSame(s: Setting, c: Credentials, d: Credentials)
    requires NoCredentials(s.spec)
    requires Printable(CoordinatorProps(s.spec, s.uses, c)) && Printable(CoordinatorProps(s.spec, s.uses, d))
    requires Text(CoordinatorProps(s.spec, s.uses, c)) == Text(CoordinatorProps(s.spec, s.uses, d))
    ensures var u, extra := s.uses, s.spec.extraConfig;
            && (u.oauth && CLIENT_ID !in extra ==> c.clientId == d.clientId)
            && (u.oauth && CLIENT_SECRET !in extra ==> c.clientSecret == d.clientSecret)
            && (SHARED_SECRET !in extra ==> c.sharedSecret == d.sharedSecret)
  {
    CoordinatorShows(s.spec, s.uses, c);
    CoordinatorShows(s.spec, s.uses, d);
  }

  lemma CatalogSame(s: Setting, c: Credentials, d: Credentials)
    requires NoCredentials(s.spec)
    requires Printable(CatalogProps(s.spec, s.uses, c)) && Printable(CatalogProps(s.spec, s.uses, d))
    requires Text(CatalogProps(s.spec, s.uses, c)) == Text(CatalogProps(s.spec, s.uses, d))
    ensures s.uses.oidc ==> c.clientId + ":" + c.clientSecret == d.clientId + ":" + d.clientSecret
    ensures s.uses.staticKeys ==> c.accessKey == d.accessKey && c.secretKey == d.secretKey
  {
    CatalogShows(s.spec, s.uses, c);
    CatalogShows(s.spec, s.uses, d);
  }

  /** The converse: the texts depend on the credentials that show only. */
  lemma ShownDetermine(s: Setting, c: Credentials, d: Credentials, order: seq<string>)
    requires SameShown(s, c, d)
    ensures TrinoTextsOf(s.(credentials := c), order) == TrinoTextsOf(s.(credentials := d), order)
  {
    SharedSame(s, c, d);
    LastLayers(s.spec.worker, SharedProps(c), SharedProps(d), s.spec.extraConfig);
    CoordinatorDetermined(s, c, d);
    CatalogDetermined(s, c, d);
  }

  lemma SharedSame(s: Setting, c: Credentials, d: Credentials)
    requires SameShown(s, c, d)
    ensures SharedProps(c) + s.spec.extraConfig == SharedProps(d) + s.spec.extraConfig
  {
  }

  lemma CoordinatorDetermined(s: Setting, c: Credentials, d: Credentials)
    requires SameShown(s, c, d)
    ensures CoordinatorProps(s.spec, s.uses, c) == CoordinatorProps(s.spec, s.uses, d)
  {
    var t, u := s.spec, s.uses;
    SharedSame(s, c, d);
    OauthSame(s, c, d);
    LastLayers(t.coordinator + OauthLayer(t, u, c), SharedProps(c), SharedProps(d), t.extraConfig);
  }

  lemma CatalogDetermined(s: Setting, c: Credentials, d: Credentials)
    requires SameShown(s, c, d)
    ensures OwnCatalog(s.(credentials := c)) == OwnCatalog(s.(credentials := d))
  {
    var u := s.uses;
    assert u.lakekeeper ==> ClientLayer(u, c) == ClientLayer(u, d) && KeysLayer(u, c) == KeysLayer(u, d);
  }

  lemma LastLayers(base: map<string, string>, a: map<string, string>, b: map<string, string>,
                   extra: map<string, string>)
    requires a + extra == b + extra
    ensures base + a + extra == base + b + extra
  {
    assert base + a + extra == base + (a + extra);
    assert base + b + extra == base + (b + extra);
  }

  lemma OauthSame(s: Setting, c: Credentials, d: Credentials)
    requires SameShown(s, c, d)
    ensures var t, u := s.spec, s.uses;
            t.coordinator + OauthLayer(t, u, c) + SharedProps(d) + t.extraConfig
            == t.coordinator + OauthLayer(t, u, d) + SharedProps(d) + t.extraConfig
  {
    var t := s.spec;
    if s.uses.oauth {
      TwoKeys(t.coordinator, t.oauth, SharedProps(d), t.extraConfig, CLIENT_ID, CLIENT_SECRET,
              (c.clientId, c.clientSecret), (d.clientId, d.clientSecret));
    }
  }

  lemma TwoKeys(base: map<string, string>, oauth: map<string, string>, shared: map<string, string>,
                extra: map<string, string>, id: string, secret: string, a: (string, string), b: (string, string))
    requires id !in extra ==> a.0 == b.0
    requires secret !in extra ==> a.1 == b.1
    ensures base + (oauth + map[id := a.0, secret := a.1]) + shared + extra
            == base + (oauth + map[id := b.0, secret := b.1]) + shared + extra
  {
  }

  /** With one order of the extra catalogs, the inputs of two credentials are equal if and only
      if everything the texts show of them is: a changed credential that is used restarts
      Trino, and no other. */
  lemma ChangedCredentialShows(digest: Digest, s: Setting, d: Credentials, order: seq<string>)
    requires Readable(digest, s, order) && Readable(digest, s.(credentials := d), order)
    requires var a, b := TrinoTextsOf(s, order), TrinoTextsOf(s.(credentials := d), order);
             digest(a.catalogs) == digest(b.catalogs) ==> a.catalogs == b.catalogs
    ensures TrinoInput(digest, TrinoTextsOf(s, order)) == TrinoInput(digest, TrinoTextsOf(s.(credentials := d), order))
            <==> SameShown(s, s.credentials, d)
  {
    var s' := s.(credentials := d);
    var a, b := TrinoTextsOf(s, order), TrinoTextsOf(s', order);
    if SameShown(s, s.credentials, d) {
      ShownDetermine(s, s.credentials, d, order);
    } else if TrinoInput(digest, a) == TrinoInput(digest, b) {
      var x := [a.coordinator, a.worker, digest(a.catalogs), a.accessControl];
      var y := [b.coordinator, b.worker, digest(b.catalogs), b.accessControl];
      FrameInjective(x, y);
      assert x[0] == y[0] && x[2] == y[2];
      CoordinatorSame(s, s.credentials, d);
      if s.uses.lakekeeper {
        FirstPart(OwnCatalog(s), OwnCatalog(s'), ExtraParts(order, s.spec.extraCatalogs));
        CatalogSame(s, s.credentials, d);
      }
    }
  }

  lemma FirstPart(a: seq<string>, b: seq<string>, rest: seq<string>)
    requires |a| == |b| == 1 && NulFree(a + rest) && NulFree(b + rest) && Frame(a + rest) == Frame(b + rest)
    ensures a[0] == b[0]
  {
    FrameInjective(a + rest, b + rest);
    assert a[0] == (a + rest)[0] && b[0] == (b + rest)[0];
  }

  lemma Keys(extra: map<string, string>) returns (order: seq<string>)
    ensures Enumerates(order, extra)
  {
    order := Order.SortSet(extra.Keys);
    Order.SortSetSorts(extra.Keys);
  }
}

/** What a lost LakeKeeper request does to the batched decision. */
module TrinoLostRequest {
  import opened Wrappers
  import opened Lakekeeper
  import opened TrinoPolicy
  import opened TrinoBatch
  import Order

  function TableOf(name: string): Resource {
    Table("c", "s", name, [], None)
  }

  function CheckOf(name: string): Check {
    TableCheck("w", ["s"], name, "oidc~u", GetMetadata)
  }

  function ViewOf(name: string): Check {
    ViewCheck("w", ["s"], name, "oidc~u", GetMetadata)
  }

  /** LakeKeeper grants only the second table, and loses the request with the first pair. */
  function Reply(first: string, second: string, checks: seq<Check>): seq<bool> {
    if checks == [CheckOf(first), ViewOf(first)] then []
    else seq(|checks|, i requires 0 <= i < |checks| => checks[i] == CheckOf(second))
  }

  /** FilterTables in one managed catalog, two checks a request. */
  function LossyQuery(first: string, second: string): Query {
    Query(Config(map["c" := CatalogConfig("l", "w")], map["l" := 2], [], false),
          World((lk, checks) => Reply(first, second, checks), (lk, wh) => Some("w"), (name, r) => false),
          "u", FilterTables)
  }

  ghost predicate Lossy(q: Query, first: string, second: string) {
    && q == LossyQuery(first, second) && first != second
    && !IsMetadataTable(first) && !IsMetadataTable(second)
  }

  lemma NamespaceOfOne()
    ensures NamespaceFor("s") == ["s"]
  {
    assert "s"[1..] == "" && Split("", '.') == [""];
    assert Split("s", '.') == [['s'] + Split("", '.')[0]] + Split("", '.')[1..];
    assert ['s'] + "" == "s" && Split("", '.')[1..] == [];
  }

  lemma SingleReply(first: string, second: string, c: Check)
    ensures Reply(first, second, [c]) == [c == CheckOf(second)]
  {
    assert [c] != [CheckOf(first), ViewOf(first)];
  }

  lemma Singles(q: Query, first: string, second: string, c: Check)
    requires Lossy(q, first, second)
    ensures Granted(q, "l", c) <==> c == CheckOf(second)
  {
    SingleReply(first, second, c);
  }

  /** One check is never a pair, so its answer is right also through chunking. */
  lemma SingleBatch(q: Query, first: string, second: string, c: Check)
    requires Lossy(q, first, second)
    ensures BatchResults(q, "l", [c]) == [c == CheckOf(second)]
  {
    var send := (cs: seq<Check>) => q.world.send("l", cs);
    SingleReply(first, second, c);
    assert Chunk([c], 2, 0) == [c];
    assert NumBatches(1, 2) == 1;
    assert ResultsFrom(send, [c], 2, 1) == [];
    assert ResultsFrom(send, [c], 2, 0) == send([c]) + [];
  }

  lemma {:induction false} NothingBroad(q: Query, first: string, second: string, rs: seq<Resource>)
    requires Lossy(q, first, second) && rs == [TableOf(first), TableOf(second)]
    ensures !WarehouseBroad(q, "c") && NamespaceBroad(q, rs, "c") == {}
  {
    SingleBatch(q, first, second, WarehouseCheck("w", LakekeeperUser(q), ListEverything));
    var schemas := DistinctSchemas(q, rs, "c");
    assert ProbesSchema(q, rs[0], "c") && rs[0].schema in schemas;
    assert schemas == {"s"};
    var names := Order.SortSet(schemas);
    assert names == ["s"] by {
      assert {"s"} - {"s"} == {};
    }
    var checks := NamespaceChecks("w", LakekeeperUser(q), names, ListEverything);
    assert checks == [NamespaceCheck("w", NamespaceFor("s"), LakekeeperUser(q), ListEverything)];
    SingleBatch(q, first, second, checks[0]);
  }

  lemma PairResults(q: Query, first: string, second: string)
    requires Lossy(q, first, second)
    ensures BatchResults(q, "l", [CheckOf(first), ViewOf(first), CheckOf(second), ViewOf(second)]) == [true, false]
  {
    var checks := [CheckOf(first), ViewOf(first), CheckOf(second), ViewOf(second)];
    var send := (cs: seq<Check>) => q.world.send("l", cs);
    assert Chunk(checks, 2, 0) == [CheckOf(first), ViewOf(first)];
    assert Chunk(checks, 2, 1) == [CheckOf(second), ViewOf(second)];
    assert NumBatches(4, 2) == 2;
    assert send(Chunk(checks, 2, 0)) == [];
    assert send(Chunk(checks, 2, 1)) == [true, false];
    assert ResultsFrom(send, checks, 2, 2) == [];
    assert ResultsFrom(send, checks, 2, 1) == [true, false];
    assert ResultsFrom(send, checks, 2, 0) == [] + [true, false];
  }

  lemma {:induction false} Entries(q: Query, first: string, second: string, rs: seq<Resource>)
    requires Lossy(q, first, second) && rs == [TableOf(first), TableOf(second)]
    ensures TableEntries(q, rs, "c") == [0, 1] && SchemaEntries(q, rs, "c") == []
  {
    NothingBroad(q, first, second, rs);
    SlowBoth(q, first, second, rs);
    BothIndices((i: nat) => SlowTable(q, rs, "c", i));
    NoIndices((i: nat) => SlowSchema(q, rs, "c", i));
  }

  lemma {:induction false} SlowBoth(q: Query, first: string, second: string, rs: seq<Resource>)
    requires Lossy(q, first, second) && rs == [TableOf(first), TableOf(second)]
    requires !WarehouseBroad(q, "c") && NamespaceBroad(q, rs, "c") == {}
    ensures SlowTable(q, rs, "c", 0) && SlowTable(q, rs, "c", 1)
    ensures !SlowSchema(q, rs, "c", 0) && !SlowSchema(q, rs, "c", 1)
  {
  }

  lemma BothIndices(p: nat -> bool)
    requires p(0) && p(1)
    ensures Indices(p, 2) == [0, 1]
  {
    assert Indices(p, 0) == [] && Indices(p, 1) == [] + [0];
  }

  lemma NoIndices(p: nat -> bool)
    requires !p(0) && !p(1)
    ensures Indices(p, 2) == []
  {
    assert Indices(p, 0) == [] && Indices(p, 1) == [];
  }

  lemma {:induction false} Pairs(rs: seq<Resource>, first: string, second: string)
    requires rs == [TableOf(first), TableOf(second)]
    ensures PairChecks("w", "oidc~u", GetMetadata, rs)
            == [CheckOf(first), ViewOf(first), CheckOf(second), ViewOf(second)]
    ensures Twice([0, 1]) == [0, 0, 1, 1]
  {
    assert rs[..1] == [TableOf(first)] && rs[..1][..0] == [];
    NamespaceOfOne();
    assert NamespaceFor("s") == ["s"];
    assert PairChecks("w", "oidc~u", GetMetadata, rs[..1]) == [] + [CheckOf(first), ViewOf(first)];
    assert [0, 1][..1] == [0] && [0][..0] == [];
    assert Twice([0]) == [] + [0, 0];
  }

  lemma FirstPairOnly()
    ensures AllowedPairs([0, 0, 1, 1], [true, false]) == {0}
  {
    var ordered, results := [0, 0, 1, 1], [true, false];
    assert ordered[0] == 0 && At(results, 0);
  }

  lemma {:induction false} LossyChecks(q: Query, first: string, second: string, rs: seq<Resource>)
    requires Lossy(q, first, second) && rs == [TableOf(first), TableOf(second)]
    ensures WarehouseOf(q, "c") == Some(("l", "w")) && LakekeeperUser(q) == "oidc~u"
    ensures q.op.FilterTables? && Resources(rs, [0, 1]) == rs
  {
  }

  lemma {:induction false} SlowResult(q: Query, first: string, second: string, rs: seq<Resource>)
    requires Lossy(q, first, second) && rs == [TableOf(first), TableOf(second)]
    ensures SlowTables(q, rs, "c") == {0} && SlowSchemas(q, rs, "c") == {}
  {
    Entries(q, first, second, rs);
    Pairs(rs, first, second);
    PairResults(q, first, second);
    LossyChecks(q, first, second, rs);
    SlowFrom(q, rs, "l", "w", [0, 1], [CheckOf(first), ViewOf(first), CheckOf(second), ViewOf(second)]);
    FirstPairOnly();
    NoSlowSchemas(q, rs);
  }

  lemma {:induction false} SlowFrom(q: Query, rs: seq<Resource>, lk: string, wh: string, entries: seq<nat>,
                                    checks: seq<Check>)
    requires WarehouseOf(q, "c") == Some((lk, wh)) && TableOperation(q.op) && TableEntries(q, rs, "c") == entries
    requires checks == PairChecks(wh, LakekeeperUser(q), BatchAction(q.op), Resources(rs, entries))
    ensures SlowTables(q, rs, "c") == AllowedPairs(Twice(entries), BatchResults(q, lk, checks))
  {
  }

  lemma {:induction false} NoSlowSchemas(q: Query, rs: seq<Resource>)
    requires WarehouseOf(q, "c") == Some(("l", "w")) && SchemaEntries(q, rs, "c") == []
    ensures SlowSchemas(q, rs, "c") == {}
  {
  }

  lemma {:induction false} AllowedAre(q: Query, first: string, second: string, rs: seq<Resource>)
    requires Lossy(q, first, second) && rs == [TableOf(first), TableOf(second)]
    ensures !Allow(q, rs[0]) && Allow(q, rs[1])
  {
    NamespaceOfOne();
    assert NamespaceFor("s") == ["s"] && LakekeeperUser(q) == "oidc~u";
    Singles(q, first, second, CheckOf(first));
    Singles(q, first, second, ViewOf(first));
    Singles(q, first, second, CheckOf(second));
  }

  /** Where nothing is broad, a table LakeKeeper decides is in the batch by the slow path only. */
  lemma {:induction false} SlowOnly(q: Query, rs: seq<Resource>, i: nat, catalog: string)
    requires i < |rs| && LakekeeperTable(q, rs[i]) && rs[i].catalog == catalog
    requires q.cfg.catalogs.Keys == {catalog} && q.op.FilterTables?
    requires !WarehouseBroad(q, catalog) && NamespaceBroad(q, rs, catalog) == {}
    requires SlowSchemas(q, rs, catalog) == {}
    ensures InBatch(q, rs, i) <==> i in SlowTables(q, rs, catalog)
  {
    assert catalog in q.cfg.catalogs.Keys;
    assert forall c | c in q.cfg.catalogs :: c in q.cfg.catalogs.Keys;
    assert BySlowPath(q, rs, i) <==> i in SlowTables(q, rs, catalog);
  }

  lemma {:induction false} LossyTables(q: Query, first: string, second: string, rs: seq<Resource>, i: nat)
    requires Lossy(q, first, second) && rs == [TableOf(first), TableOf(second)] && i < 2
    ensures LakekeeperTable(q, rs[i]) && rs[i].catalog == "c" && q.cfg.catalogs.Keys == {"c"}
  {
    assert Managed(q, "c");
  }

  /** The lost request shifts the second table's answer to the first: the batch allows the
      table that `allow` denies, and denies the one that `allow` allows. */
  lemma LostRequestInBatch(first: string, second: string)
    requires first != second && !IsMetadataTable(first) && !IsMetadataTable(second)
    ensures var q, rs := LossyQuery(first, second), [TableOf(first), TableOf(second)];
            InBatch(q, rs, 0) && !Allow(q, rs[0]) && !InBatch(q, rs, 1) && Allow(q, rs[1])
  {
    var q, rs := LossyQuery(first, second), [TableOf(first), TableOf(second)];
    AllowedAre(q, first, second, rs);
    LossyBatch(q, first, second, rs);
  }

  lemma {:induction false} LossyBatch(q: Query, first: string, second: string, rs: seq<Resource>)
    requires Lossy(q, first, second) && rs == [TableOf(first), TableOf(second)]
    ensures InBatch(q, rs, 0) && !InBatch(q, rs, 1)
  {
    SlowResult(q, first, second, rs);
    NothingBroad(q, first, second, rs);
    LossyTables(q, first, second, rs, 0);
    LossyTables(q, first, second, rs, 1);
    SlowOnly(q, rs, 0, "c");
    SlowOnly(q, rs, 1, "c");
  }
}

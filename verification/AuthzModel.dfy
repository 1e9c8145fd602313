/** The OpenFGA authorization model the operator wants: one type per configured object
    type, with the relations merged, plus the built-in types "user" and "group". */
module AuthzModel {
  import opened Wrappers
  import opened AccessSpec
  import Order

  const USER_TYPE := "user"
  const GROUP_TYPE := "group"
  const GROUP_RELATION := "member"

  type Pair = (string, string)

  datatype AuthzType = AuthzType(name: string, relations: seq<string>)

  /** A user type a relation accepts; an empty relation means the object itself. */
  datatype Reference = Reference(type_: string, relation: string)

  /** The relations of a type, each with the user types it is assignable to. */
  datatype TypeDefinition = TypeDefinition(name: string, relations: map<string, seq<Reference>>)

  datatype Model = Model(definitions: seq<TypeDefinition>)

  // --- Merging the configured types ---

  ghost function FilterPairs(filters: seq<RowFilterSpec>): set<Pair> {
    set i | 0 <= i < |filters| :: (filters[i].fgaType, OrDefault(filters[i].relation, DEFAULT_RELATION))
  }

  ghost function ColumnPairs(access: seq<ColumnAccessSpec>): set<Pair> {
    set i | 0 <= i < |access| :: (access[i].fgaType, OrDefault(access[i].relation, DEFAULT_RELATION))
  }

  /** The type/relation pairs a spec asks for. */
  ghost function Pairs(spec: AuthzSpec): set<Pair> {
    FilterPairs(spec.rowFilters) + ColumnPairs(spec.columnAccess)
  }

  ghost function Names(pairs: set<Pair>): set<string> {
    set p | p in pairs :: p.0
  }

  ghost function Relations(pairs: set<Pair>, name: string): set<string> {
    set p | p in pairs && p.0 == name :: p.1
  }

  ghost function TypesFor(pairs: set<Pair>, names: seq<string>): (types: seq<AuthzType>)
    ensures |types| == |names|
    ensures forall i | 0 <= i < |names| :: types[i] == AuthzType(names[i], Order.SortSet(Relations(pairs, names[i])))
  {
    seq(|names|, i requires 0 <= i < |names| => AuthzType(names[i], Order.SortSet(Relations(pairs, names[i]))))
  }

  /** Sorted types with sorted relations: a function of the pair set alone. */
  ghost function Canonical(pairs: set<Pair>): seq<AuthzType> {
    TypesFor(pairs, Order.SortSet(Names(pairs)))
  }

  ghost predicate Collects(relations: map<string, seq<string>>, pairs: set<Pair>) {
    && (forall n, r :: (n, r) in pairs <==> n in relations && r in relations[n])
    && (forall n | n in relations :: relations[n] != [] && Order.Distinct(relations[n]))
  }

  method Add(relations: map<string, seq<string>>, name: string, relation: string, ghost pairs: set<Pair>)
    returns (r: map<string, seq<string>>)
    requires Collects(relations, pairs)
    ensures Collects(r, pairs + {(name, relation)})
  {
    var current := if name in relations then relations[name] else [];
    r := relations;
    if relation !in current {
      r := relations[name := current + [relation]];
    }
  }

  lemma CollectedName(relations: map<string, seq<string>>, pairs: set<Pair>, n: string)
    requires Collects(relations, pairs)
    ensures n in relations <==> n in Names(pairs)
  {
    if n in relations {
      var p := (n, relations[n][0]);
      assert p in pairs && p.0 == n;
    }
    if n in Names(pairs) {
      var p :| p in pairs && p.0 == n;
      assert (p.0, p.1) in pairs;
    }
  }

  lemma CollectedRelations(relations: map<string, seq<string>>, pairs: set<Pair>, n: string)
    requires Collects(relations, pairs) && n in relations
    ensures Order.Sort(relations[n]) == Order.SortSet(Relations(pairs, n))
  {
    forall r
      ensures r in Relations(pairs, n) <==> r in relations[n]
    {
      if r in Relations(pairs, n) {
        var p :| p in pairs && p.0 == n && p.1 == r;
        assert p == (n, r);
      }
      if r in relations[n] {
        var p := (n, r);
        assert p in pairs && p.0 == n && p.1 == r;
      }
    }
    assert Order.Elements(relations[n]) == Relations(pairs, n);
    Order.SortDistinct(relations[n]);
  }

  lemma KeysAreNames(relations: map<string, seq<string>>, pairs: set<Pair>)
    requires Collects(relations, pairs)
    ensures relations.Keys == Names(pairs)
  {
    forall n
      ensures n in relations <==> n in Names(pairs)
    {
      CollectedName(relations, pairs, n);
    }
  }

  method CollectFilters(filters: seq<RowFilterSpec>) returns (relations: map<string, seq<string>>)
    ensures Collects(relations, FilterPairs(filters))
  {
    relations := map[];
    for i := 0 to |filters|
      invariant Collects(relations, FilterPairs(filters[..i]))
    {
      var f := filters[i];
      relations := Add(relations, f.fgaType, OrDefault(f.relation, DEFAULT_RELATION), FilterPairs(filters[..i]));
      assert FilterPairs(filters[..i + 1])
          == FilterPairs(filters[..i]) + {(f.fgaType, OrDefault(f.relation, DEFAULT_RELATION))};
    }
    assert filters[..|filters|] == filters;
  }

  method CollectColumns(access: seq<ColumnAccessSpec>, start: map<string, seq<string>>, ghost pairs: set<Pair>)
    returns (relations: map<string, seq<string>>)
    requires Collects(start, pairs)
    ensures Collects(relations, pairs + ColumnPairs(access))
  {
    relations := start;
    assert pairs + ColumnPairs(access[..0]) == pairs;
    for i := 0 to |access|
      invariant Collects(relations, pairs + ColumnPairs(access[..i]))
    {
      var c := access[i];
      relations := Add(relations, c.fgaType, OrDefault(c.relation, DEFAULT_RELATION), pairs + ColumnPairs(access[..i]));
      assert pairs + ColumnPairs(access[..i + 1])
          == pairs + ColumnPairs(access[..i]) + {(c.fgaType, OrDefault(c.relation, DEFAULT_RELATION))};
    }
    assert access[..|access|] == access;
  }

  method SortedTypes(relations: map<string, seq<string>>, names: seq<string>) returns (types: seq<AuthzType>)
    requires forall i | 0 <= i < |names| :: names[i] in relations
    ensures |types| == |names|
    ensures forall i | 0 <= i < |names| :: types[i] == AuthzType(names[i], Order.Sort(relations[names[i]]))
  {
    types := [];
    for i := 0 to |names|
      invariant |types| == i
      invariant forall k | 0 <= k < i :: types[k] == AuthzType(names[k], Order.Sort(relations[names[k]]))
    {
      types := types + [AuthzType(names[i], Order.Sort(relations[names[i]]))];
    }
  }

  lemma SortedIsCanonical(pairs: set<Pair>, types: seq<AuthzType>)
    requires |types| == |Order.SortSet(Names(pairs))|
    requires forall i | 0 <= i < |types| ::
               var n := Order.SortSet(Names(pairs))[i];
               types[i] == AuthzType(n, Order.SortSet(Relations(pairs, n)))
    ensures types == Canonical(pairs)
  {
  }

  method CanonicalTypes(relations: map<string, seq<string>>, ghost pairs: set<Pair>) returns (types: seq<AuthzType>)
    requires Collects(relations, pairs)
    ensures types == Canonical(pairs)
  {
    var names := Order.SortSet(relations.Keys);
    KeysAreNames(relations, pairs);
    forall i | 0 <= i < |names|
      ensures names[i] in relations
      ensures Order.Sort(relations[names[i]]) == Order.SortSet(Relations(pairs, names[i]))
    {
      assert names[i] in names;
      CollectedRelations(relations, pairs, names[i]);
    }
    types := SortedTypes(relations, names);
    SortedIsCanonical(pairs, types);
  }

  /** `accessAuthzTypes`: whatever order and repetition the entries come in, the result is
      the canonical list of exactly the configured pairs. */
  method AccessAuthzTypes(spec: AuthzSpec) returns (types: seq<AuthzType>)
    ensures types == Canonical(Pairs(spec))
  {
    var relations := CollectFilters(spec.rowFilters);
    relations := CollectColumns(spec.columnAccess, relations, FilterPairs(spec.rowFilters));
    types := CanonicalTypes(relations, Pairs(spec));
  }

  /** The merged list is sorted and free of duplicates, types and relations alike. */
  lemma MergeSorted(pairs: set<Pair>)
    ensures var types := Canonical(pairs);
            && (forall i, j | 0 <= i < j < |types| ::
                  Order.Leq(types[i].name, types[j].name) && types[i].name != types[j].name)
            && (forall i | 0 <= i < |types| :: Order.Sorted(types[i].relations) && Order.Distinct(types[i].relations))
  {
    var names := Order.SortSet(Names(pairs));
    Order.SortSetSorts(Names(pairs));
    forall i | 0 <= i < |names|
      ensures Order.Sorted(Canonical(pairs)[i].relations) && Order.Distinct(Canonical(pairs)[i].relations)
    {
      Order.SortSetSorts(Relations(pairs, names[i]));
    }
  }

  /** The merged list holds exactly the configured pairs. */
  lemma MergeExact(pairs: set<Pair>, n: string, r: string)
    ensures (n, r) in pairs <==>
            exists i ::
              0 <= i < |Canonical(pairs)| && Canonical(pairs)[i].name == n && r in Canonical(pairs)[i].relations
  {
    var names, types := Order.SortSet(Names(pairs)), Canonical(pairs);
    if (n, r) in pairs {
      assert (n, r).0 in Names(pairs) && (n, r).1 in Relations(pairs, n);
      var i :| 0 <= i < |names| && names[i] == n;
      assert types[i].name == n && r in types[i].relations;
    }
    if i :| 0 <= i < |types| && types[i].name == n && r in types[i].relations {
      assert r in Relations(pairs, n);
      var p :| p in pairs && p.0 == n && p.1 == r;
      assert p == (n, r);
    }
  }

  // --- The model ---

  function Assignable(): seq<Reference> {
    [Reference(USER_TYPE, ""), Reference(GROUP_TYPE, GROUP_RELATION)]
  }

  function Definition(name: string, relations: seq<string>, assignable: seq<Reference>): TypeDefinition {
    TypeDefinition(name, map r | r in relations :: assignable)
  }

  function BuiltIn(): seq<TypeDefinition> {
    [Definition(USER_TYPE, [], []), Definition(GROUP_TYPE, [GROUP_RELATION], [Reference(USER_TYPE, "")])]
  }

  function Definitions(types: seq<AuthzType>): (defs: seq<TypeDefinition>)
    ensures |defs| == |types|
    ensures forall i | 0 <= i < |types| :: defs[i] == Definition(types[i].name, types[i].relations, Assignable())
  {
    seq(|types|, i requires 0 <= i < |types| => Definition(types[i].name, types[i].relations, Assignable()))
  }

  function ModelOf(types: seq<AuthzType>): Model {
    Model(BuiltIn() + Definitions(types))
  }

  method AuthzTypeJSON(name: string, relations: seq<string>, assignable: seq<Reference>) returns (d: TypeDefinition)
    ensures d == Definition(name, relations, assignable)
  {
    var filled: map<string, seq<Reference>> := map[];
    for i := 0 to |relations|
      invariant filled == map r | r in relations[..i] :: assignable
    {
      filled := filled[relations[i] := assignable];
    }
    assert relations[..|relations|] == relations;
    d := TypeDefinition(name, filled);
  }

  method AuthzModelJSON(types: seq<AuthzType>) returns (m: Model)
    ensures m == ModelOf(types)
  {
    var user := AuthzTypeJSON(USER_TYPE, [], []);
    var group := AuthzTypeJSON(GROUP_TYPE, [GROUP_RELATION], [Reference(USER_TYPE, "")]);
    var definitions := [user, group];
    for i := 0 to |types|
      invariant definitions == BuiltIn() + Definitions(types[..i])
    {
      var d := AuthzTypeJSON(types[i].name, types[i].relations, Assignable());
      assert Definitions(types[..i + 1]) == Definitions(types[..i]) + [d];
      definitions := definitions + [d];
    }
    assert types[..|types|] == types;
    m := Model(definitions);
  }

  /** The wanted model, definition by definition: "user" without relations, "group" whose
      "member" is for users alone, and the configured types, each relation for users and for
      the members of groups. */
  lemma ModelExact(types: seq<AuthzType>, i: nat)
    requires i < |types|
    ensures var all := ModelOf(types).definitions;
            && |all| == |types| + 2
            && all[0] == TypeDefinition("user", map[])
            && all[1] == TypeDefinition("group", map["member" := [Reference("user", "")]])
            && all[i + 2].name == types[i].name
            && (forall r :: r in all[i + 2].relations <==> r in types[i].relations)
            && (forall r | r in types[i].relations ::
                  all[i + 2].relations[r] == [Reference("user", ""), Reference("group", "member")])
  {
    var all := BuiltIn() + Definitions(types);
    assert all[i + 2] == Definitions(types)[i];
    assert all[0].relations.Keys == {} && all[1].relations.Keys == {"member"};
  }

  /** The rendered policies ask OpenFGA about this pair. */
  ghost predicate Queried(spec: AuthzSpec, pair: Pair) {
    || (exists i ::
          && 0 <= i < |spec.rowFilters|
          && QueriedBy(spec.rowFilters[i].fgaType, spec.rowFilters[i].relation, pair))
    || (exists i ::
          && 0 <= i < |spec.columnAccess|
          && QueriedBy(spec.columnAccess[i].fgaType, spec.columnAccess[i].relation, pair))
  }

  ghost predicate QueriedBy(fgaType: string, relation: string, pair: Pair) {
    pair.0 == fgaType && pair.1 == if relation == "" then "viewer" else relation
  }

  lemma PairsExact(spec: AuthzSpec, pair: Pair)
    ensures pair in Pairs(spec) <==> Queried(spec, pair)
  {
    if i :| 0 <= i < |spec.rowFilters| && QueriedBy(spec.rowFilters[i].fgaType, spec.rowFilters[i].relation, pair) {
      var f := spec.rowFilters[i];
      assert (f.fgaType, OrDefault(f.relation, DEFAULT_RELATION)) in FilterPairs(spec.rowFilters);
    }
    if i :| 0 <= i < |spec.columnAccess|
            && QueriedBy(spec.columnAccess[i].fgaType, spec.columnAccess[i].relation, pair) {
      var c := spec.columnAccess[i];
      assert (c.fgaType, OrDefault(c.relation, DEFAULT_RELATION)) in ColumnPairs(spec.columnAccess);
    }
  }

  /** Every pair the rendered policies ask OpenFGA about is a relation of the desired model
      that users and group members can be given, and every configured type is there because
      some policy asks about it. */
  lemma QueriedPairsDefined(spec: AuthzSpec, pair: Pair)
    ensures Queried(spec, pair) <==> DefinedIn(ModelOf(Canonical(Pairs(spec))).definitions, pair)
  {
    PairsExact(spec, pair);
    MergeExact(Pairs(spec), pair.0, pair.1);
    ListedIsDefined(Canonical(Pairs(spec)), pair);
  }

  lemma {:induction false} ListedIsDefined(types: seq<AuthzType>, pair: Pair)
    ensures (exists i :: 0 <= i < |types| && types[i].name == pair.0 && pair.1 in types[i].relations)
            <==> DefinedIn(ModelOf(types).definitions, pair)
  {
    var all := ModelOf(types).definitions;
    if i :| 0 <= i < |types| && types[i].name == pair.0 && pair.1 in types[i].relations {
      ModelExact(types, i);
      assert DefinedFor(all[i + 2], pair);
    }
    if i :| 2 <= i < |all| && DefinedFor(all[i], pair) {
      ModelExact(types, i - 2);
      assert types[i - 2].name == pair.0 && pair.1 in types[i - 2].relations;
    }
  }

  /** Among the configured types. */
  ghost predicate DefinedIn(definitions: seq<TypeDefinition>, pair: Pair) {
    exists i :: 2 <= i < |definitions| && DefinedFor(definitions[i], pair)
  }

  /** The definition lets users and the members of groups have the pair. */
  ghost predicate DefinedFor(d: TypeDefinition, pair: Pair) {
    && d.name == pair.0 && pair.1 in d.relations
    && d.relations[pair.1] == [Reference("user", ""), Reference("group", "member")]
  }

  // --- Shapes ---

  type Shape = map<string, seq<string>>

  /** Relations by type; a later definition of the same type replaces an earlier one. */
  function ShapeOf(definitions: seq<TypeDefinition>): Shape {
    if definitions == [] then map[]
    else
      var last := definitions[|definitions| - 1];
      ShapeOf(definitions[..|definitions| - 1])[last.name := Order.SortSet(last.relations.Keys)]
  }

  method AuthzModelShape(m: Model) returns (shape: Shape)
    ensures shape == ShapeOf(m.definitions)
  {
    shape := map[];
    for i := 0 to |m.definitions|
      invariant shape == ShapeOf(m.definitions[..i])
    {
      var d := m.definitions[i];
      assert m.definitions[..i + 1][..i] == m.definitions[..i];
      shape := shape[d.name := Order.SortSet(d.relations.Keys)];
    }
    assert m.definitions[..|m.definitions|] == m.definitions;
  }

  /** The pairs a model for these pairs really has: the built-in membership relation stands
      unless a configured type takes the name "group". */
  ghost function Effective(pairs: set<Pair>): set<Pair> {
    if GROUP_TYPE in Names(pairs) then pairs else pairs + {(GROUP_TYPE, GROUP_RELATION)}
  }

  ghost function EffectiveShape(pairs: set<Pair>): Shape {
    map n | n in Names(Effective(pairs)) + {USER_TYPE} :: Order.SortSet(Relations(Effective(pairs), n))
  }

  ghost function ShapeFor(pairs: set<Pair>, names: seq<string>): Shape {
    map n | n in names :: Order.SortSet(Relations(pairs, n))
  }

  lemma {:induction false} ShapeAppend(definitions: seq<TypeDefinition>, d: TypeDefinition)
    ensures ShapeOf(definitions + [d]) == ShapeOf(definitions)[d.name := Order.SortSet(d.relations.Keys)]
  {
    assert (definitions + [d])[..|definitions|] == definitions;
  }

  lemma DefinitionKeys(name: string, relations: set<string>)
    ensures Definition(name, Order.SortSet(relations), Assignable()).relations.Keys == relations
  {
  }

  lemma DefinitionsStep(pairs: set<Pair>, names: seq<string>, n: string)
    ensures Definitions(TypesFor(pairs, names + [n])) == Definitions(TypesFor(pairs, names))
            + [Definition(n, Order.SortSet(Relations(pairs, n)), Assignable())]
  {
    var longer := TypesFor(pairs, names + [n]);
    assert longer[..|names|] == TypesFor(pairs, names);
  }

  lemma MapAddUpdate(a: Shape, b: Shape, n: string, v: seq<string>)
    ensures (a + b)[n := v] == a + b[n := v]
  {
  }

  lemma {:induction false} ShapeOfTypes(base: seq<TypeDefinition>, pairs: set<Pair>, names: seq<string>)
    ensures ShapeOf(base + Definitions(TypesFor(pairs, names))) == ShapeOf(base) + ShapeFor(pairs, names)
  {
    if names == [] {
      assert base + Definitions(TypesFor(pairs, names)) == base;
      assert ShapeFor(pairs, names) == map[];
    } else {
      var k := |names| - 1;
      var init, n := names[..k], names[k];
      assert names == init + [n];
      var defs := Definitions(TypesFor(pairs, init));
      var relations := Relations(pairs, n);
      var d := Definition(n, Order.SortSet(relations), Assignable());
      calc {
        ShapeOf(base + Definitions(TypesFor(pairs, names)));
        { DefinitionsStep(pairs, init, n); assert base + (defs + [d]) == base + defs + [d]; }
        ShapeOf(base + defs + [d]);
        { ShapeAppend(base + defs, d); DefinitionKeys(n, relations); }
        ShapeOf(base + defs)[n := Order.SortSet(relations)];
        { ShapeOfTypes(base, pairs, init); }
        (ShapeOf(base) + ShapeFor(pairs, init))[n := Order.SortSet(relations)];
        { MapAddUpdate(ShapeOf(base), ShapeFor(pairs, init), n, Order.SortSet(relations)); }
        ShapeOf(base) + ShapeFor(pairs, init)[n := Order.SortSet(relations)];
        { ShapeForAppend(pairs, init, n); }
        ShapeOf(base) + ShapeFor(pairs, names);
      }
    }
  }

  lemma ShapeForAppend(pairs: set<Pair>, names: seq<string>, n: string)
    ensures ShapeFor(pairs, names + [n]) == ShapeFor(pairs, names)[n := Order.SortSet(Relations(pairs, n))]
  {
  }

  lemma BuiltInShape()
    ensures ShapeOf(BuiltIn()) == map[USER_TYPE := [], GROUP_TYPE := [GROUP_RELATION]]
  {
    var defs := BuiltIn();
    assert defs[..1][..0] == [];
    assert defs[..1][0].relations.Keys == {};
    assert defs[1].relations.Keys == {GROUP_RELATION};
    SingletonSorted(GROUP_RELATION);
    assert ShapeOf(defs[..1]) == map[USER_TYPE := []];
  }

  lemma EffectiveRelations(pairs: set<Pair>, n: string)
    ensures Names(Effective(pairs)) == Names(pairs) + {GROUP_TYPE}
    ensures Relations(Effective(pairs), n) ==
            if n in Names(pairs) then Relations(pairs, n) else if n == GROUP_TYPE then {GROUP_RELATION} else {}
  {
    var e := Effective(pairs);
    var extra := (GROUP_TYPE, GROUP_RELATION);
    if GROUP_TYPE !in Names(pairs) {
      assert extra in e && extra.0 in Names(e) && extra.1 in Relations(e, GROUP_TYPE);
    }
  }

  lemma SingletonSorted(r: string)
    ensures Order.SortSet({r}) == [r]
  {
    assert {r} - {r} == {};
  }

  lemma ShapeExact(pairs: set<Pair>)
    ensures ShapeOf(ModelOf(Canonical(pairs)).definitions) == EffectiveShape(pairs)
  {
    var names := Order.SortSet(Names(pairs));
    ShapeOfTypes(BuiltIn(), pairs, names);
    BuiltInShape();
    BuiltInsEffective(pairs);
  }

  ghost function BuiltInsWith(pairs: set<Pair>): Shape {
    map[USER_TYPE := [], GROUP_TYPE := [GROUP_RELATION]] + ShapeFor(pairs, Order.SortSet(Names(pairs)))
  }

  lemma BuiltInsAt(pairs: set<Pair>, n: string)
    requires n in BuiltInsWith(pairs)
    ensures BuiltInsWith(pairs)[n] == Order.SortSet(Relations(Effective(pairs), n))
  {
    EffectiveRelations(pairs, n);
    SingletonSorted(GROUP_RELATION);
  }

  lemma BuiltInsKeys(pairs: set<Pair>, n: string)
    ensures n in BuiltInsWith(pairs) <==> n in EffectiveShape(pairs)
  {
    EffectiveRelations(pairs, n);
    assert n in ShapeFor(pairs, Order.SortSet(Names(pairs))) <==> n in Names(pairs);
  }

  lemma SameShape(a: Shape, b: Shape)
    requires forall n :: n in a <==> n in b
    requires forall n | n in a :: a[n] == b[n]
    ensures a == b
  {
    assert a.Keys == b.Keys;
  }

  lemma BuiltInsEffective(pairs: set<Pair>)
    ensures BuiltInsWith(pairs) == EffectiveShape(pairs)
  {
    var a, b := BuiltInsWith(pairs), EffectiveShape(pairs);
    forall n
      ensures n in a <==> n in b
      ensures n in a ==> a[n] == b[n]
    {
      BuiltInsKeys(pairs, n);
      if n in a {
        BuiltInsAt(pairs, n);
      }
    }
    SameShape(a, b);
  }

  /** The shape comparison that decides whether to append a model sees exactly the
      configured pairs, except that it cannot tell a configured "group"/"member" alone
      from the built-in one. */
  lemma ShapesEqualExact(pairs: set<Pair>, pairs': set<Pair>)
    ensures ShapeOf(ModelOf(Canonical(pairs)).definitions) == ShapeOf(ModelOf(Canonical(pairs')).definitions)
            <==> Effective(pairs) == Effective(pairs')
  {
    ShapeExact(pairs);
    ShapeExact(pairs');
    if EffectiveShape(pairs) == EffectiveShape(pairs') {
      EffectiveFromShape(pairs, pairs');
      EffectiveFromShape(pairs', pairs);
    }
  }

  lemma EffectiveFromShape(pairs: set<Pair>, pairs': set<Pair>)
    requires EffectiveShape(pairs) == EffectiveShape(pairs')
    ensures Effective(pairs) <= Effective(pairs')
  {
    forall p | p in Effective(pairs)
      ensures p in Effective(pairs')
    {
      assert p.0 in EffectiveShape(pairs) && p.1 in Relations(Effective(pairs), p.0);
      assert p.1 in EffectiveShape(pairs)[p.0];
      assert p.1 in EffectiveShape(pairs')[p.0];
      var p' :| p' in Effective(pairs') && p'.0 == p.0 && p'.1 == p.1;
      assert p == p';
    }
  }

  // --- Who can be given a relation ---

  /** The definition that counts for a type: as for the shape, the last one. */
  ghost function LastDefinition(definitions: seq<TypeDefinition>, name: string): Option<TypeDefinition> {
    if definitions == [] then None
    else
      var last := definitions[|definitions| - 1];
      if last.name == name then Some(last) else LastDefinition(definitions[..|definitions| - 1], name)
  }

  /** Users and group members can be given this pair under the model. */
  ghost predicate AssignableIn(m: Model, pair: Pair) {
    var d := LastDefinition(m.definitions, pair.0);
    && d.Some? && pair.1 in d.value.relations
    && d.value.relations[pair.1] == [Reference("user", ""), Reference("group", "member")]
  }

  lemma {:induction false} LastAppend(definitions: seq<TypeDefinition>, d: TypeDefinition, name: string)
    ensures LastDefinition(definitions + [d], name)
            == if d.name == name then Some(d) else LastDefinition(definitions, name)
  {
    assert (definitions + [d])[..|definitions|] == definitions;
  }

  ghost function ConfiguredDefinition(pairs: set<Pair>, name: string): TypeDefinition {
    Definition(name, Order.SortSet(Relations(pairs, name)), Assignable())
  }

  lemma {:induction false} LastOfTypes(base: seq<TypeDefinition>, pairs: set<Pair>, names: seq<string>, name: string)
    ensures LastDefinition(base + Definitions(TypesFor(pairs, names)), name)
            == if name in names then Some(ConfiguredDefinition(pairs, name)) else LastDefinition(base, name)
  {
    if names == [] {
      assert base + Definitions(TypesFor(pairs, names)) == base;
    } else {
      var k := |names| - 1;
      var init, n := names[..k], names[k];
      assert names == init + [n];
      var defs := Definitions(TypesFor(pairs, init));
      DefinitionsStep(pairs, init, n);
      assert base + (defs + [ConfiguredDefinition(pairs, n)]) == base + defs + [ConfiguredDefinition(pairs, n)];
      LastAppend(base + defs, ConfiguredDefinition(pairs, n), name);
      LastOfTypes(base, pairs, init, name);
    }
  }

  lemma BuiltInGroup()
    ensures LastDefinition(BuiltIn(), GROUP_TYPE)
            == Some(Definition(GROUP_TYPE, [GROUP_RELATION], [Reference(USER_TYPE, "")]))
  {
  }

  /** A configured pair can be given under its own model; the built-in membership cannot be
      given to the members of another group. */
  lemma AssignableConfigured(pairs: set<Pair>, pair: Pair)
    ensures pair in pairs ==> AssignableIn(ModelOf(Canonical(pairs)), pair)
    ensures pair == (GROUP_TYPE, GROUP_RELATION) && GROUP_TYPE !in Names(pairs) ==>
              !AssignableIn(ModelOf(Canonical(pairs)), pair)
  {
    var names := Order.SortSet(Names(pairs));
    LastOfTypes(BuiltIn(), pairs, names, pair.0);
    BuiltInGroup();
    if pair in pairs {
      assert pair.0 in Names(pairs) && pair.1 in Relations(pairs, pair.0);
    }
  }

  /** Under a model for other pairs of the same shape, every wanted pair can be given to users
      and group members if and only if a wanted "group"/"member" is among the other pairs too:
      the comparison of shapes does not see that the built-in one is for users alone. */
  lemma AssignableExact(pairs: set<Pair>, pairs': set<Pair>)
    requires Effective(pairs) == Effective(pairs')
    ensures (forall pair | pair in pairs :: AssignableIn(ModelOf(Canonical(pairs')), pair))
            <==> ((GROUP_TYPE, GROUP_RELATION) in pairs ==> (GROUP_TYPE, GROUP_RELATION) in pairs')
  {
    var builtIn := (GROUP_TYPE, GROUP_RELATION);
    forall pair | pair in pairs
      ensures pair in pairs' || pair == builtIn
    {
      assert pair in Effective(pairs');
    }
    forall pair
      ensures pair in pairs' ==> AssignableIn(ModelOf(Canonical(pairs')), pair)
    {
      AssignableConfigured(pairs', pair);
    }
    if builtIn in pairs && builtIn !in pairs' {
      GroupOnlyBuiltIn(pairs, pairs');
      AssignableConfigured(pairs', builtIn);
    }
  }

  lemma GroupOnlyBuiltIn(pairs: set<Pair>, pairs': set<Pair>)
    requires Effective(pairs) == Effective(pairs')
    requires (GROUP_TYPE, GROUP_RELATION) in pairs && (GROUP_TYPE, GROUP_RELATION) !in pairs'
    ensures GROUP_TYPE !in Names(pairs')
  {
    assert (GROUP_TYPE, GROUP_RELATION).0 in Names(pairs);
    assert (GROUP_TYPE, GROUP_RELATION) in Effective(pairs');
  }
}

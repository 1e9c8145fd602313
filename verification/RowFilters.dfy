/** Row filters: from the custom resource, through OpenFGA's list of objects and the SQL
    text OPA returns, to the rows a user sees. */
module RowFilters {
  import opened Wrappers
  import opened TrinoPolicy
  import opened SqlText
  import opened AccessSpec
  import Order

  /** What OPA runs with. `listObjects` answers a list-objects request for a type, a
      relation and a user: None unless the reply has status 200. */
  datatype OpaEnv = OpaEnv(
    storeId: string,
    admins: seq<string>,
    listObjects: (string, string, string) -> Option<seq<string>>)

  function ListObjects(env: OpaEnv, fgaType: string, relation: string, user: string): Option<seq<string>> {
    if env.storeId == "" then None else env.listObjects(fgaType, relation, "user:" + user)
  }

  function TypePrefix(fgaType: string): string {
    fgaType + ":"
  }

  /** The values of the objects that carry the prefix, in order. */
  function Stripped(prefix: string, objects: seq<string>): seq<string> {
    if objects == [] then []
    else (if prefix <= objects[0] then [objects[0][|prefix|..]] else []) + Stripped(prefix, objects[1..])
  }

  function PermittedValues(env: OpaEnv, f: FilterEntry, user: string): seq<string> {
    match ListObjects(env, f.fgaType, f.relation, user)
    case None => []
    case Some(objects) => Order.Sort(Stripped(TypePrefix(f.fgaType), objects))
  }

  /** `_sql_literal`: undefined for a value of a numeric filter that is no numeral. */
  function SqlLiteral(f: FilterEntry, value: string): Option<string> {
    if !f.numeric then Some([QUOTE] + Doubled(QUOTE, value) + [QUOTE])
    else if IsNumeral(value) then Some(value)
    else None
  }

  function LiteralTexts(f: FilterEntry, values: seq<string>): seq<string> {
    if values == [] then []
    else
      (match SqlLiteral(f, values[0])
       case None => []
       case Some(text) => [text]) + LiteralTexts(f, values[1..])
  }

  function Expression(env: OpaEnv, f: FilterEntry, user: string): string {
    var texts := LiteralTexts(f, PermittedValues(env, f, user));
    if texts == [] then "false" else PrintIn(f.column, texts)
  }

  predicate MatchesTable(f: FilterEntry, r: Resource) {
    r.Table? && f.catalog == r.catalog && f.schema == r.schema && f.table == r.table
  }

  /** `row_filters`: the set of SQL expressions Trino conjoins to the query. */
  function RowFilterExpressions(env: OpaEnv, filters: seq<FilterEntry>, user: string, r: Resource): set<string> {
    if user in env.admins then {}
    else set i | 0 <= i < |filters| && MatchesTable(filters[i], r) :: Expression(env, filters[i], user)
  }

  // --- What the text reads as ---

  /** The literals a filter compares with: every value as text, or the numerals only. */
  function LiteralsOf(f: FilterEntry, values: seq<string>): (ls: seq<Literal>)
    ensures forall i | 0 <= i < |ls| :: WellFormed(ls[i])
  {
    if values == [] then []
    else
      (if !f.numeric then [Text(values[0])] else if IsNumeral(values[0]) then [Numeral(values[0])] else [])
      + LiteralsOf(f, values[1..])
  }

  lemma {:induction false} TextsPrintLiterals(f: FilterEntry, values: seq<string>)
    ensures LiteralTexts(f, values) == PrintLiterals(LiteralsOf(f, values))
  {
    if values != [] {
      TextsPrintLiterals(f, values[1..]);
    }
  }

  lemma {:induction false} LiteralsExact(f: FilterEntry, values: seq<string>, l: Literal)
    ensures l in LiteralsOf(f, values) <==>
            if f.numeric then l.Numeral? && l.digits in values && IsNumeral(l.digits)
            else l.Text? && l.text in values
  {
    if values != [] {
      LiteralsExact(f, values[1..], l);
      assert values == [values[0]] + values[1..];
    }
  }

  /** The emitted text reads back as the comparison with exactly the sorted permitted
      values (in a numeric filter: the numerals among them). */
  lemma ExpressionReads(env: OpaEnv, f: FilterEntry, user: string)
    requires DOUBLE_QUOTE !in f.column
    ensures var ls := LiteralsOf(f, PermittedValues(env, f, user));
            ReadPredicate(Expression(env, f, user)) == Some(if ls == [] then False else In(f.column, ls))
  {
    var values := PermittedValues(env, f, user);
    TextsPrintLiterals(f, values);
    if LiteralsOf(f, values) != [] {
      InRoundTrip(f.column, LiteralsOf(f, values));
    }
  }

  // --- The order of OpenFGA's reply does not show ---

  lemma {:induction false} StrippedCounts(prefix: string, objects: seq<string>, v: string)
    ensures multiset(Stripped(prefix, objects))[v] == multiset(objects)[prefix + v]
  {
    if objects != [] {
      StrippedCounts(prefix, objects[1..], v);
      assert objects == [objects[0]] + objects[1..];
      if prefix <= objects[0] {
        assert objects[0] == prefix + objects[0][|prefix|..];
        assert objects[0] == prefix + v <==> objects[0][|prefix|..] == v;
      }
    }
  }

  /** Permuting the objects of a reply leaves the SQL text unchanged. */
  lemma ReplyOrderInvisible(env: OpaEnv, env': OpaEnv, f: FilterEntry, user: string)
    requires env.storeId == env'.storeId
    requires var a, b := ListObjects(env, f.fgaType, f.relation, user), ListObjects(env', f.fgaType, f.relation, user);
             (a.None? && b.None?) || (a.Some? && b.Some? && multiset(a.value) == multiset(b.value))
    ensures Expression(env, f, user) == Expression(env', f, user)
  {
    var a, b := ListObjects(env, f.fgaType, f.relation, user), ListObjects(env', f.fgaType, f.relation, user);
    if a.Some? {
      var prefix := TypePrefix(f.fgaType);
      var s, t := Stripped(prefix, a.value), Stripped(prefix, b.value);
      forall v
        ensures multiset(s)[v] == multiset(t)[v]
      {
        StrippedCounts(prefix, a.value, v);
        StrippedCounts(prefix, b.value, v);
      }
      assert multiset(s) == multiset(t);
      Order.SortIgnoresOrder(s, t);
    }
  }

  // --- Which rows are visible ---

  ghost predicate Passes(expression: string, row: Row) {
    ReadPredicate(expression).Some? && Eval(ReadPredicate(expression).value, row).True3?
  }

  /** Trino keeps the rows for which the conjunction of the filters is true. */
  ghost predicate Visible(expressions: set<string>, row: Row) {
    forall e | e in expressions :: Passes(e, row)
  }

  /** The user holds the filter's relation on the object for value v. */
  ghost predicate Holds(env: OpaEnv, f: FilterEntry, user: string, v: string) {
    && ListObjects(env, f.fgaType, f.relation, user).Some?
    && f.fgaType + ":" + v in ListObjects(env, f.fgaType, f.relation, user).value
  }

  /** The key of a row is the value v; NULL is no value. */
  ghost predicate KeyIs(f: FilterEntry, v: string, key: Value) {
    if f.numeric then IsNumeral(v) && key == Num(DecimalValue(v)) else key == Str(v)
  }

  /** The grant the custom resource asks for. */
  ghost predicate KeyPermitted(env: OpaEnv, f: FilterEntry, user: string, row: Row) {
    exists v :: Holds(env, f, user, v) && KeyIs(f, v, row(f.column))
  }

  lemma PermittedExact(env: OpaEnv, f: FilterEntry, user: string, v: string)
    ensures v in PermittedValues(env, f, user) <==> Holds(env, f, user, v)
  {
    var objects := ListObjects(env, f.fgaType, f.relation, user);
    if objects.Some? {
      var values := Stripped(TypePrefix(f.fgaType), objects.value);
      StrippedCounts(TypePrefix(f.fgaType), objects.value, v);
      Order.SortSorts(values);
      assert v in values <==> v in multiset(values);
      assert TypePrefix(f.fgaType) + v in objects.value <==> TypePrefix(f.fgaType) + v in multiset(objects.value);
    }
  }

  lemma {:induction false} ComparisonExact(f: FilterEntry, values: seq<string>, key: Value)
    ensures AnyEqual(key, LiteralsOf(f, values)).True3? <==> exists v :: v in values && KeyIs(f, v, key)
  {
    if values != [] {
      var v, rest := values[0], values[1..];
      ComparisonExact(f, rest, key);
      assert values == [v] + rest && v in values;
      var ls := LiteralsOf(f, rest);
      if !f.numeric {
        assert LiteralsOf(f, values) == [Text(v)] + ls;
        assert ([Text(v)] + ls)[1..] == ls;
      } else if IsNumeral(v) {
        assert LiteralsOf(f, values) == [Numeral(v)] + ls;
        assert ([Numeral(v)] + ls)[1..] == ls;
        assert Equal3(key, Numeral(v)).True3? <==> KeyIs(f, v, key);
        assert AnyEqual(key, [Numeral(v)] + ls).True3? <==> KeyIs(f, v, key) || AnyEqual(key, ls).True3?;
      } else {
        assert LiteralsOf(f, values) == ls;
      }
    }
  }

  lemma ExpressionExact(env: OpaEnv, f: FilterEntry, user: string, row: Row)
    requires DOUBLE_QUOTE !in f.column
    ensures Passes(Expression(env, f, user), row) <==> KeyPermitted(env, f, user, row)
  {
    var values := PermittedValues(env, f, user);
    ExpressionReads(env, f, user);
    ComparisonExact(f, values, row(f.column));
    forall v
      ensures v in values <==> Holds(env, f, user, v)
    {
      PermittedExact(env, f, user, v);
    }
  }

  // --- From the custom resource ---

  /** The filter is one of the table's. */
  ghost predicate Filters(s: RowFilterSpec, r: Resource) {
    && r.Table? && (if s.catalog == "" then "lakekeeper" else s.catalog) == r.catalog
    && s.schema == r.schema && s.table == r.table
  }

  /** OpenFGA lists the object of value v for the user, in the store OPA was given. */
  ghost predicate Grants(env: OpaEnv, s: RowFilterSpec, user: string, v: string) {
    && env.storeId != ""
    && var reply := env.listObjects(s.fgaType, if s.relation == "" then "viewer" else s.relation, "user:" + user);
       reply.Some? && s.fgaType + ":" + v in reply.value
  }

  /** The row's key is a value granted to the user; NULL never is. */
  ghost predicate RowGranted(env: OpaEnv, s: RowFilterSpec, user: string, row: Row) {
    exists v :: && Grants(env, s, user, v)
                && if s.numeric == Some(true) then IsNumeral(v) && row(s.column) == Num(DecimalValue(v))
                   else row(s.column) == Str(v)
  }

  lemma GrantedExact(env: OpaEnv, s: RowFilterSpec, e: FilterEntry, user: string, r: Resource, row: Row)
    requires FilterRendered(s, e)
    ensures MatchesTable(e, r) <==> Filters(s, r)
    ensures KeyPermitted(env, e, user, row) <==> RowGranted(env, s, user, row)
  {
    assert forall v :: Holds(env, e, user, v) <==> Grants(env, s, user, v);
    if v :| Holds(env, e, user, v) && KeyIs(e, v, row(e.column)) {
      assert Grants(env, s, user, v);
    }
    if v :| Grants(env, s, user, v) && KeyIs(e, v, row(s.column)) {
      assert Holds(env, e, user, v);
    }
  }

  /** From custom resource to rows: for every list of filters, every set of grants, every
      user who is no admin and every row, the emitted SQL keeps the row if and only if, for
      each filter of the table, OpenFGA lists the row's key for the user. */
  lemma {:induction false} VisibleRowsExact(env: OpaEnv, specs: seq<RowFilterSpec>, entries: seq<FilterEntry>,
                                            user: string, r: Resource, row: Row)
    requires user !in env.admins
    requires forall i | 0 <= i < |specs| :: DOUBLE_QUOTE !in specs[i].column
    requires |entries| == |specs| && forall i | 0 <= i < |specs| :: FilterRendered(specs[i], entries[i])
    ensures Visible(RowFilterExpressions(env, entries, user, r), row) <==>
            forall i | 0 <= i < |specs| && Filters(specs[i], r) :: RowGranted(env, specs[i], user, row)
  {
    var expressions := RowFilterExpressions(env, entries, user, r);
    forall i | 0 <= i < |specs|
      ensures MatchesTable(entries[i], r) <==> Filters(specs[i], r)
      ensures Passes(Expression(env, entries[i], user), row) <==> RowGranted(env, specs[i], user, row)
    {
      GrantedExact(env, specs[i], entries[i], user, r, row);
      ExpressionExact(env, entries[i], user, row);
    }
    forall i | 0 <= i < |specs| && MatchesTable(entries[i], r)
      ensures Expression(env, entries[i], user) in expressions
    {
    }
  }

  /** Fail closed: while the store is unknown, or a list-objects call for one of the
      table's filters fails, no row of that table is visible, whatever the column name. */
  lemma {:induction false} FailsClosed(env: OpaEnv, specs: seq<RowFilterSpec>, entries: seq<FilterEntry>,
                                       user: string, r: Resource, row: Row, i: nat)
    requires user !in env.admins && |entries| == |specs| && i < |specs|
    requires FilterRendered(specs[i], entries[i]) && Filters(specs[i], r)
    requires var relation := if specs[i].relation == "" then "viewer" else specs[i].relation;
             env.storeId == "" || env.listObjects(specs[i].fgaType, relation, "user:" + user).None?
    ensures !Visible(RowFilterExpressions(env, entries, user, r), row)
  {
    assert MatchesTable(entries[i], r);
    assert Expression(env, entries[i], user) == "false";
    assert "false" in RowFilterExpressions(env, entries, user, r);
    assert !Passes("false", row);
  }

  /** Admins see every row. */
  lemma {:induction false} AdminsUnfiltered(env: OpaEnv, entries: seq<FilterEntry>, user: string, r: Resource, row: Row)
    requires exists k :: 0 <= k < |env.admins| && env.admins[k] == user
    ensures Visible(RowFilterExpressions(env, entries, user, r), row)
  {
  }
}

/** Row filters and column restrictions of the custom resource, and the records the
    operator renders for the policies, with every default resolved. */
module AccessSpec {
  import opened Wrappers

  const DEFAULT_CATALOG := "lakekeeper"
  const DEFAULT_RELATION := "viewer"
  const DEFAULT_MASK := "NULL"

  datatype RowFilterSpec = RowFilterSpec(
    catalog: string, schema: string, table: string, column: string,
    fgaType: string, relation: string, numeric: Option<bool>)

  datatype ColumnAccessSpec = ColumnAccessSpec(
    catalog: string, schema: string, table: string, column: string, mask: string,
    fgaType: string, relation: string, object_: string)

  datatype AuthzSpec = AuthzSpec(enabled: bool, rowFilters: seq<RowFilterSpec>, columnAccess: seq<ColumnAccessSpec>)

  datatype FilterEntry = FilterEntry(
    catalog: string, schema: string, table: string, column: string,
    fgaType: string, relation: string, numeric: bool)

  datatype ColumnEntry = ColumnEntry(
    catalog: string, schema: string, table: string, column: string, mask: string,
    fgaType: string, relation: string, object_: string)

  function OrDefault(s: string, default_: string): string {
    if s == "" then default_ else s
  }

  function DefaultObject(catalog: string, schema: string, table: string, column: string): string {
    catalog + "." + schema + "." + table + "." + column
  }

  function ResolveFilter(f: RowFilterSpec): FilterEntry {
    FilterEntry(OrDefault(f.catalog, DEFAULT_CATALOG), f.schema, f.table, f.column,
                f.fgaType, OrDefault(f.relation, DEFAULT_RELATION), f.numeric == Some(true))
  }

  function ResolveColumn(c: ColumnAccessSpec): ColumnEntry {
    var catalog := OrDefault(c.catalog, DEFAULT_CATALOG);
    ColumnEntry(catalog, c.schema, c.table, c.column, OrDefault(c.mask, DEFAULT_MASK),
                c.fgaType, OrDefault(c.relation, DEFAULT_RELATION),
                OrDefault(c.object_, DefaultObject(catalog, c.schema, c.table, c.column)))
  }

  /** The record of a filter, field by field. */
  ghost predicate FilterRendered(f: RowFilterSpec, e: FilterEntry) {
    && e.catalog == (if f.catalog == "" then "lakekeeper" else f.catalog)
    && e.schema == f.schema && e.table == f.table && e.column == f.column
    && e.fgaType == f.fgaType && e.relation == (if f.relation == "" then "viewer" else f.relation)
    && (e.numeric <==> f.numeric == Some(true))
  }

  /** The record of a column restriction, field by field; an object that is not named is the
      column's full name. */
  ghost predicate ColumnRendered(c: ColumnAccessSpec, e: ColumnEntry) {
    && e.catalog == (if c.catalog == "" then "lakekeeper" else c.catalog)
    && e.schema == c.schema && e.table == c.table && e.column == c.column
    && e.mask == (if c.mask == "" then "NULL" else c.mask)
    && e.fgaType == c.fgaType && e.relation == (if c.relation == "" then "viewer" else c.relation)
    && e.object_ == if c.object_ != "" then c.object_
                    else e.catalog + "." + c.schema + "." + c.table + "." + c.column
  }

  method RenderRowFilters(filters: seq<RowFilterSpec>) returns (entries: seq<FilterEntry>)
    ensures |entries| == |filters|
    ensures forall i | 0 <= i < |filters| :: FilterRendered(filters[i], entries[i])
  {
    entries := [];
    for i := 0 to |filters|
      invariant |entries| == i
      invariant forall k | 0 <= k < i :: FilterRendered(filters[k], entries[k])
    {
      entries := entries + [ResolveFilter(filters[i])];
    }
  }

  method RenderColumnAccess(access: seq<ColumnAccessSpec>) returns (entries: seq<ColumnEntry>)
    ensures |entries| == |access|
    ensures forall i | 0 <= i < |access| :: ColumnRendered(access[i], entries[i])
  {
    entries := [];
    for i := 0 to |access|
      invariant |entries| == i
      invariant forall k | 0 <= k < i :: ColumnRendered(access[k], entries[k])
    {
      entries := entries + [ResolveColumn(access[i])];
    }
  }

  // --- Default object ids ---

  predicate Dotless(s: string) {
    '.' !in s
  }

  lemma DotlessPrefix(a: string, b: string, s: string, t: string)
    requires Dotless(a) && Dotless(b) && a + "." + s == b + "." + t
    ensures a == b && s == t
  {
    var l, r := a + "." + s, b + "." + t;
    assert l[|a|] == '.' && r[|b|] == '.';
    assert forall i | 0 <= i < |a| :: l[i] == a[i] && a[i] in a;
    assert forall i | 0 <= i < |b| :: r[i] == b[i] && b[i] in b;
    assert |a| == |b|;
    assert a == l[..|a|] && b == r[..|b|];
    assert s == l[|a| + 1..] && t == r[|b| + 1..];
  }

  /** Default object ids are injective on catalogs, schemas and tables without a dot. */
  lemma DefaultObjectInjective(c: string, s: string, t: string, n: string, c': string, s': string, t': string,
                               n': string)
    requires Dotless(c) && Dotless(s) && Dotless(t) && Dotless(c') && Dotless(s') && Dotless(t')
    requires DefaultObject(c, s, t, n) == DefaultObject(c', s', t', n')
    ensures c == c' && s == s' && t == t' && n == n'
  {
    assert DefaultObject(c, s, t, n) == c + "." + (s + "." + (t + "." + n));
    assert DefaultObject(c', s', t', n') == c' + "." + (s' + "." + (t' + "." + n'));
    DotlessPrefix(c, c', s + "." + (t + "." + n), s' + "." + (t' + "." + n'));
    DotlessPrefix(s, s', t + "." + n, t' + "." + n');
    DotlessPrefix(t, t', n, n');
  }

  lemma SplitAtDot(s: string) returns (a: string, b: string)
    requires !Dotless(s)
    ensures s == a + "." + b
  {
    var i :| 0 <= i < |s| && s[i] == '.';
    a, b := s[..i], s[i + 1..];
  }

  lemma DotCollides(c: string, s: string, t: string, n: string) returns (c': string, s': string, t': string, n': string)
    requires !(Dotless(c) && Dotless(s) && Dotless(t) && Dotless(n))
    ensures DefaultObject(c', s', t', n') == DefaultObject(c, s, t, n)
    ensures (c', s', t', n') != (c, s, t, n)
  {
    c', s', t', n' := c, s, t, n;
    if !Dotless(n) {
      var a, b := SplitAtDot(n);
      c', s', t', n' := c + "." + s, t, a, b;
      assert |c'| > |c|;
    } else if !Dotless(t) {
      var a, b := SplitAtDot(t);
      c', s', t', n' := c + "." + s, a, b, n;
      assert |c'| > |c|;
    } else if !Dotless(s) {
      var a, b := SplitAtDot(s);
      c', s', t', n' := c + "." + a, b, t, n;
      assert |c'| > |c|;
    } else {
      var a, b := SplitAtDot(c);
      c', s', t', n' := a, b, s, t + "." + n;
      assert |n'| > |n|;
    }
  }

  lemma DotsCounted(c: string, s: string, t: string, n: string)
    ensures multiset(DefaultObject(c, s, t, n))['.']
            == multiset(c)['.'] + multiset(s)['.'] + multiset(t)['.'] + multiset(n)['.'] + 3
  {
    assert multiset(".") == multiset{'.'};
  }

  /** A default object id belongs to one column only exactly when none of its four parts
      has a dot. */
  lemma ObjectNamesOneColumn(c: string, s: string, t: string, n: string)
    ensures (forall c', s', t', n' | DefaultObject(c', s', t', n') == DefaultObject(c, s, t, n) ::
              (c', s', t', n') == (c, s, t, n))
            <==> Dotless(c) && Dotless(s) && Dotless(t) && Dotless(n)
  {
    if Dotless(c) && Dotless(s) && Dotless(t) && Dotless(n) {
      forall c', s', t', n' | DefaultObject(c', s', t', n') == DefaultObject(c, s, t, n)
        ensures (c', s', t', n') == (c, s, t, n)
      {
        DotlessObjectUnique(c, s, t, n, c', s', t', n');
      }
    } else {
      var c', s', t', n' := DotCollides(c, s, t, n);
    }
  }

  lemma DotlessObjectUnique(c: string, s: string, t: string, n: string, c': string, s': string, t': string, n': string)
    requires Dotless(c) && Dotless(s) && Dotless(t) && Dotless(n)
    requires DefaultObject(c', s', t', n') == DefaultObject(c, s, t, n)
    ensures c' == c && s' == s && t' == t && n' == n
  {
    DotsCounted(c, s, t, n);
    DotsCounted(c', s', t', n');
    DefaultObjectInjective(c, s, t, n, c', s', t', n');
  }
}

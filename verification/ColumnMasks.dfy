/** Column masks: which columns of a batch Trino replaces, and with which expression. */
module ColumnMasks {
  import opened Wrappers
  import opened AccessSpec
  import opened RowFilters

  datatype Column = Column(catalog: string, schema: string, table: string, column: string)

  datatype Mask = Mask(index: nat, expression: string)

  predicate MatchesColumn(a: ColumnEntry, c: Column) {
    a.catalog == c.catalog && a.schema == c.schema && a.table == c.table && a.column == c.column
  }

  predicate ColumnPermitted(env: OpaEnv, a: ColumnEntry, user: string) {
    match ListObjects(env, a.fgaType, a.relation, user)
    case None => false
    case Some(objects) => a.fgaType + ":" + a.object_ in objects
  }

  predicate Masks(env: OpaEnv, a: ColumnEntry, user: string, c: Column) {
    user !in env.admins && MatchesColumn(a, c) && !ColumnPermitted(env, a, user)
  }

  function BatchColumnMasks(env: OpaEnv, access: seq<ColumnEntry>, user: string, columns: seq<Column>): set<Mask> {
    set i, k | 0 <= i < |columns| && 0 <= k < |access| && Masks(env, access[k], user, columns[i])
      :: Mask(i, access[k].mask)
  }

  /** What a restriction of the custom resource means: the user holds its relation on the
      column's object, by default the column's full name, in the store OPA was given. */
  ghost predicate HoldsColumn(env: OpaEnv, s: ColumnAccessSpec, user: string) {
    && env.storeId != ""
    && var catalog := if s.catalog == "" then "lakekeeper" else s.catalog;
       var name := catalog + "." + s.schema + "." + s.table + "." + s.column;
       var reply := env.listObjects(s.fgaType, if s.relation == "" then "viewer" else s.relation, "user:" + user);
       && reply.Some?
       && s.fgaType + ":" + (if s.object_ == "" then name else s.object_) in reply.value
  }

  ghost predicate Restricts(s: ColumnAccessSpec, c: Column) {
    && (if s.catalog == "" then "lakekeeper" else s.catalog) == c.catalog
    && s.schema == c.schema && s.table == c.table && s.column == c.column
  }

  lemma RestrictionExact(env: OpaEnv, s: ColumnAccessSpec, a: ColumnEntry, user: string, c: Column)
    requires ColumnRendered(s, a)
    ensures Masks(env, a, user, c) <==> user !in env.admins && Restricts(s, c) && !HoldsColumn(env, s, user)
  {
  }

  /** A column is replaced by an expression if and only if the user is no admin and some
      restriction on it with that mask lacks its grant; an unknown store or a failed call
      counts as no grant. */
  lemma {:induction false} MaskedExact(env: OpaEnv, specs: seq<ColumnAccessSpec>, access: seq<ColumnEntry>,
                                       user: string, columns: seq<Column>, i: nat, expression: string)
    requires i < |columns|
    requires |access| == |specs| && forall k | 0 <= k < |specs| :: ColumnRendered(specs[k], access[k])
    ensures Mask(i, expression) in BatchColumnMasks(env, access, user, columns) <==>
            && user !in env.admins
            && exists k :: && 0 <= k < |specs| && Restricts(specs[k], columns[i]) && !HoldsColumn(env, specs[k], user)
                           && expression == if specs[k].mask == "" then "NULL" else specs[k].mask
  {
    forall k | 0 <= k < |specs|
      ensures Masks(env, access[k], user, columns[i]) <==>
              user !in env.admins && Restricts(specs[k], columns[i]) && !HoldsColumn(env, specs[k], user)
    {
      RestrictionExact(env, specs[k], access[k], user, columns[i]);
    }
    if k :| 0 <= k < |specs| && Masks(env, access[k], user, columns[i]) && access[k].mask == expression {
      assert Mask(i, access[k].mask) in BatchColumnMasks(env, access, user, columns);
    }
  }

  ghost predicate SameKey(a: ColumnEntry, b: ColumnEntry) {
    (a.catalog, a.schema, a.table, a.column) == (b.catalog, b.schema, b.table, b.column)
  }

  /** No index of the batch has two masks. */
  ghost predicate OneMask(env: OpaEnv, access: seq<ColumnEntry>, user: string, columns: seq<Column>) {
    var masks := BatchColumnMasks(env, access, user, columns);
    forall a, b | a in masks && b in masks && a.index == b.index :: a == b
  }

  /** Restrictions of one column that both lack their grant agree on the mask. */
  ghost predicate MasksAgree(env: OpaEnv, access: seq<ColumnEntry>, user: string) {
    forall k, m | 0 <= k < m < |access| && SameKey(access[k], access[m]) ::
      || ColumnPermitted(env, access[k], user) || ColumnPermitted(env, access[m], user)
      || access[k].mask == access[m].mask
  }

  lemma {:induction false} MaskComesFrom(env: OpaEnv, access: seq<ColumnEntry>, user: string, columns: seq<Column>,
                                         a: Mask)
    returns (k: nat)
    requires a in BatchColumnMasks(env, access, user, columns)
    ensures a.index < |columns| && k < |access|
    ensures Masks(env, access[k], user, columns[a.index]) && a.expression == access[k].mask
  {
    k :| k < |access| && Masks(env, access[k], user, columns[a.index]) && a.expression == access[k].mask;
  }

  /** No index ever gets two masks, in whatever batch, if and only if of every two restrictions
      of one column that the user lacks the masks are equal. The custom resource does not
      rule out two restrictions of one column. */
  lemma {:induction false} OneMaskExact(env: OpaEnv, access: seq<ColumnEntry>, user: string)
    requires user !in env.admins
    ensures (forall columns :: OneMask(env, access, user, columns)) <==> MasksAgree(env, access, user)
  {
    if MasksAgree(env, access, user) {
      forall columns
        ensures OneMask(env, access, user, columns)
      {
        AgreeingMasks(env, access, user, columns);
      }
    } else {
      var k, m :| 0 <= k < m < |access| && SameKey(access[k], access[m])
                  && !ColumnPermitted(env, access[k], user) && !ColumnPermitted(env, access[m], user)
                  && access[k].mask != access[m].mask;
      var c := access[k];
      var columns := [Column(c.catalog, c.schema, c.table, c.column)];
      assert Masks(env, access[k], user, columns[0]) && Masks(env, access[m], user, columns[0]);
      assert Mask(0, access[k].mask) in BatchColumnMasks(env, access, user, columns);
      assert Mask(0, access[m].mask) in BatchColumnMasks(env, access, user, columns);
      assert !OneMask(env, access, user, columns);
    }
  }

  lemma {:induction false} AgreeingMasks(env: OpaEnv, access: seq<ColumnEntry>, user: string, columns: seq<Column>)
    requires MasksAgree(env, access, user)
    ensures OneMask(env, access, user, columns)
  {
    var masks := BatchColumnMasks(env, access, user, columns);
    forall a, b | a in masks && b in masks && a.index == b.index
      ensures a == b
    {
      var k := MaskComesFrom(env, access, user, columns, a);
      var m := MaskComesFrom(env, access, user, columns, b);
      assert SameKey(access[k], access[m]) && SameKey(access[m], access[k]);
    }
  }
}

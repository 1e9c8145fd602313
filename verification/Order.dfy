/** Strings in code-point order, and the sorted sequences that Go's `slices.Sort`
    and Rego's `sort` produce. */
module Order {

  predicate Leq(a: string, b: string) {
    if |a| == 0 then true
    else if |b| == 0 then false
    else if a[0] == b[0] then Leq(a[1..], b[1..])
    else a[0] < b[0]
  }

  lemma {:induction false} LeqReflexive(a: string)
    ensures Leq(a, a)
  {
    if |a| > 0 {
      LeqReflexive(a[1..]);
    }
  }

  lemma {:induction false} LeqTotal(a: string, b: string)
    ensures Leq(a, b) || Leq(b, a)
  {
    if |a| > 0 && |b| > 0 && a[0] == b[0] {
      LeqTotal(a[1..], b[1..]);
    }
  }

  lemma {:induction false} LeqTransitive(a: string, b: string, c: string)
    requires Leq(a, b) && Leq(b, c)
    ensures Leq(a, c)
  {
    if |a| > 0 && a[0] == b[0] && b[0] == c[0] {
      LeqTransitive(a[1..], b[1..], c[1..]);
    }
  }

  lemma {:induction false} LeqAntisymmetric(a: string, b: string)
    requires Leq(a, b) && Leq(b, a)
    ensures a == b
  {
    if |a| > 0 {
      LeqAntisymmetric(a[1..], b[1..]);
      assert a == [a[0]] + a[1..] && b == [b[0]] + b[1..];
    }
  }

  ghost predicate Sorted(s: seq<string>) {
    forall i, j | 0 <= i < j < |s| :: Leq(s[i], s[j])
  }

  ghost predicate Distinct<T>(s: seq<T>) {
    forall i, j | 0 <= i < j < |s| :: s[i] != s[j]
  }

  // --- Sorting a list, duplicates kept ---

  function Insert(x: string, s: seq<string>): (r: seq<string>)
    ensures multiset(r) == multiset(s) + multiset{x}
  {
    if s == [] then [x]
    else if Leq(x, s[0]) then [x] + s
    else
      assert s == [s[0]] + s[1..];
      [s[0]] + Insert(x, s[1..])
  }

  lemma {:induction false} InsertSorted(x: string, s: seq<string>)
    requires Sorted(s)
    ensures Sorted(Insert(x, s))
  {
    if s != [] {
      if Leq(x, s[0]) {
        forall j | 0 <= j < |s|
          ensures Leq(x, s[j])
        {
          if j > 0 {
            LeqTransitive(x, s[0], s[j]);
          }
        }
      } else {
        LeqTotal(x, s[0]);
        var rest := Insert(x, s[1..]);
        InsertSorted(x, s[1..]);
        forall j | 0 <= j < |rest|
          ensures Leq(s[0], rest[j])
        {
          assert rest[j] in multiset(rest);
          assert rest[j] == x || rest[j] in s[1..];
        }
      }
    }
  }

  function Sort(s: seq<string>): (r: seq<string>)
    ensures multiset(r) == multiset(s)
  {
    if s == [] then []
    else
      assert s == [s[0]] + s[1..];
      Insert(s[0], Sort(s[1..]))
  }

  lemma {:induction false} SortSorts(s: seq<string>)
    ensures Sorted(Sort(s))
    ensures forall x :: x in Sort(s) <==> x in s
  {
    if s != [] {
      SortSorts(s[1..]);
      InsertSorted(s[0], Sort(s[1..]));
    }
    forall x
      ensures x in Sort(s) <==> x in s
    {
      assert x in Sort(s) <==> x in multiset(Sort(s));
    }
  }

  lemma SortedHead(a: seq<string>, x: string)
    requires Sorted(a) && x in a
    ensures Leq(a[0], x)
  {
    var i :| 0 <= i < |a| && a[i] == x;
    LeqReflexive(x);
  }

  lemma TailMultiset(a: seq<string>)
    requires a != []
    ensures multiset(a[1..]) == multiset(a) - multiset{a[0]}
  {
    assert a == [a[0]] + a[1..];
  }

  /** A sorted sequence is determined by its elements and their multiplicities. */
  lemma {:induction false} SortedUnique(a: seq<string>, b: seq<string>)
    requires Sorted(a) && Sorted(b) && multiset(a) == multiset(b)
    ensures a == b
  {
    if a == [] {
      assert |multiset(b)| == 0;
    } else {
      assert a[0] in multiset(b) && a[0] in b;
      assert b[0] in multiset(a) && b[0] in a;
      SortedHead(a, b[0]);
      SortedHead(b, a[0]);
      LeqAntisymmetric(a[0], b[0]);
      TailMultiset(a);
      TailMultiset(b);
      SortedUnique(a[1..], b[1..]);
      assert a == [a[0]] + a[1..] && b == [b[0]] + b[1..];
    }
  }

  /** Sorting forgets the order in which the elements arrived. */
  lemma SortIgnoresOrder(a: seq<string>, b: seq<string>)
    requires multiset(a) == multiset(b)
    ensures Sort(a) == Sort(b)
  {
    SortSorts(a);
    SortSorts(b);
    SortedUnique(Sort(a), Sort(b));
  }

  // --- Sorting a set, or the keys of a map ---

  lemma {:induction false} LeastExists(s: set<string>) returns (m: string)
    requires s != {}
    ensures m in s && forall x | x in s :: Leq(m, x)
  {
    var y :| y in s;
    LeqReflexive(y);
    if s == {y} {
      m := y;
    } else {
      var n := LeastExists(s - {y});
      LeqTotal(n, y);
      if Leq(n, y) {
        m := n;
      } else {
        m := y;
        forall x | x in s
          ensures Leq(y, x)
        {
          if x != y {
            LeqTransitive(y, n, x);
          }
        }
      }
    }
  }

  function Least(s: set<string>): (m: string)
    requires s != {}
    ensures m in s && forall x | x in s :: Leq(m, x)
  {
    assert exists m :: m in s && forall x | x in s :: Leq(m, x) by {
      var m := LeastExists(s);
    }
    assert forall a, b | a in s && b in s && Leq(a, b) && Leq(b, a) :: a == b by {
      forall a, b | a in s && b in s && Leq(a, b) && Leq(b, a)
        ensures a == b
      {
        LeqAntisymmetric(a, b);
      }
    }
    var m :| m in s && forall x | x in s :: Leq(m, x);
    m
  }

  function SortSet(s: set<string>): (r: seq<string>)
    ensures |r| == |s|
    ensures forall x :: x in r <==> x in s
    decreases |s|
  {
    if s == {} then []
    else
      var m := Least(s);
      [m] + SortSet(s - {m})
  }

  lemma {:induction false} SortSetSorts(s: set<string>)
    ensures Sorted(SortSet(s)) && Distinct(SortSet(s))
    decreases |s|
  {
    if s != {} {
      var m := Least(s);
      var rest := SortSet(s - {m});
      SortSetSorts(s - {m});
      forall j | 0 <= j < |rest|
        ensures Leq(m, rest[j]) && rest[j] != m
      {
        assert rest[j] in rest;
      }
    }
  }

  ghost function Elements<T>(s: seq<T>): set<T> {
    set x | x in s
  }

  lemma {:induction false} DistinctMultiset<T>(s: seq<T>)
    requires Distinct(s)
    ensures multiset(s) == multiset(Elements(s))
  {
    if s != [] {
      var last := s[|s| - 1];
      var init := s[..|s| - 1];
      assert s == init + [last];
      DistinctMultiset(init);
      assert last !in init;
      assert Elements(s) == Elements(init) + {last};
    }
  }

  /** Sorting a list without duplicates gives the sorted set of its elements. */
  lemma SortDistinct(s: seq<string>)
    requires Distinct(s)
    ensures Sort(s) == SortSet(Elements(s))
  {
    var t := SortSet(Elements(s));
    SortSorts(s);
    SortSetSorts(Elements(s));
    DistinctMultiset(s);
    DistinctMultiset(t);
    assert Elements(t) == Elements(s);
    SortedUnique(Sort(s), t);
  }
}

/** Java properties text, printed for Trino from Go maps whose iteration order is random,
    and the config hash whose change restarts a Deployment. */
module Properties {
  import Order

  /** One order in which Go may iterate over a map. */
  ghost predicate Enumerates<V>(order: seq<string>, m: map<string, V>) {
    Order.Distinct(order) && forall k :: k in order <==> k in m
  }

  function Get(m: map<string, string>, k: string): string {
    if k in m then m[k] else ""
  }

  // --- Printing ---

  function Line(k: string, v: string): string {
    k + "=" + v + "\n"
  }

  function Lines(keys: seq<string>, m: map<string, string>): string {
    if keys == [] then "" else Line(keys[0], Get(m, keys[0])) + Lines(keys[1..], m)
  }

  function Text(m: map<string, string>): string {
    Lines(Order.SortSet(m.Keys), m)
  }

  lemma {:induction false} LinesAppend(keys: seq<string>, k: string, m: map<string, string>)
    ensures Lines(keys + [k], m) == Lines(keys, m) + Line(k, Get(m, k))
  {
    if keys == [] {
      LinesOne(k, m);
      assert keys + [k] == [k];
    } else {
      LinesAppend(keys[1..], k, m);
      assert (keys + [k])[1..] == keys[1..] + [k];
      Associates(Line(keys[0], Get(m, keys[0])), Lines(keys[1..], m), Line(k, Get(m, k)));
    }
  }

  lemma LinesOne(k: string, m: map<string, string>)
    ensures Lines([k], m) == Line(k, Get(m, k))
  {
    assert [k][1..] == [];
  }

  lemma Associates(a: string, b: string, c: string)
    ensures a + b + c == a + (b + c)
  {
  }

  method WriteLines(keys: seq<string>, m: map<string, string>) returns (text: string)
    ensures text == Lines(keys, m)
  {
    text := "";
    for i := 0 to |keys|
      invariant text == Lines(keys[..i], m)
    {
      LinesAppend(keys[..i], keys[i], m);
      assert keys[..i + 1] == keys[..i] + [keys[i]];
      text := text + (keys[i] + "=" + Get(m, keys[i]) + "\n");
    }
    assert keys[..|keys|] == keys;
  }

  lemma {:induction false} LinesNotEmpty(keys: seq<string>, m: map<string, string>)
    ensures Lines(keys, m) == "" <==> keys == []
  {
  }

  lemma TextNotEmpty(m: map<string, string>, k: string)
    requires k in m
    ensures Text(m) != ""
  {
    LinesNotEmpty(Order.SortSet(m.Keys), m);
    Order.SortSetSorts(m.Keys);
  }

  /** `renderProperties`: the text does not depend on the iteration order. */
  method RenderProperties(m: map<string, string>, order: seq<string>) returns (text: string)
    requires Enumerates(order, m)
    ensures text == Text(m)
  {
    Order.SortDistinct(order);
    assert Order.Elements(order) == m.Keys;
    text := WriteLines(Order.Sort(order), m);
  }

  /** Go's iteration order over a map: any order of its keys. */
  method IterationOrder<V>(m: map<string, V>) returns (order: seq<string>)
    ensures Enumerates(order, m)
  {
    order := [];
    var rest := m.Keys;
    while rest != {}
      invariant Order.Distinct(order) && rest <= m.Keys
      invariant forall k :: k in order <==> k in m && k !in rest
      decreases |rest|
    {
      var k :| k in rest;
      order, rest := order + [k], rest - {k};
    }
  }

  // --- Reading back: each line is cut at its first "=" ---

  function IndexOf(s: string, c: char): (i: nat)
    ensures i <= |s|
    ensures c !in s[..i]
    ensures i < |s| ==> s[i] == c
  {
    if s == "" || s[0] == c then 0
    else
      var i := 1 + IndexOf(s[1..], c);
      assert s[..i] == [s[0]] + s[1..][..i - 1];
      i
  }

  function Read(text: string): map<string, string>
    decreases |text|
  {
    var n := IndexOf(text, '\n');
    if n == |text| then map[]
    else
      var line := text[..n];
      var e := IndexOf(line, '=');
      var rest := Read(text[n + 1..]);
      if e == |line| then rest
      else map[line[..e] := line[e + 1..]] + rest
  }

  lemma IndexOfAppend(a: string, c: char, b: string)
    requires c !in a
    ensures IndexOf(a + [c] + b, c) == |a|
  {
    var s := a + [c] + b;
    var i := IndexOf(s, c);
    assert s[|a|] == c && s[..|a|] == a;
    assert forall k | 0 <= k < |a| :: s[k] == a[k] && a[k] in a;
    assert forall k | 0 <= k < i :: s[..i][k] == s[k];
  }

  predicate Printable(m: map<string, string>) {
    forall k | k in m :: '=' !in k && '\n' !in k && '\n' !in m[k]
  }

  lemma ReadLine(k: string, v: string, rest: string)
    requires '=' !in k && '\n' !in k && '\n' !in v
    ensures Read(Line(k, v) + rest) == map[k := v] + Read(rest)
  {
    var line := k + "=" + v;
    var text := Line(k, v) + rest;
    assert text == line + ['\n'] + rest;
    IndexOfAppend(line, '\n', rest);
    assert text[..|line|] == line && text[|line| + 1..] == rest;
    assert line == k + ['='] + v;
    IndexOfAppend(k, '=', v);
    assert line[..|k|] == k && line[|k| + 1..] == v;
  }

  function Restricted(keys: seq<string>, m: map<string, string>): map<string, string> {
    map k | k in keys :: Get(m, k)
  }

  lemma RestrictedStep(keys: seq<string>, m: map<string, string>)
    requires keys != [] && keys[0] !in keys[1..]
    ensures Restricted(keys, m) == map[keys[0] := Get(m, keys[0])] + Restricted(keys[1..], m)
  {
    assert keys == [keys[0]] + keys[1..];
  }

  lemma {:induction false} ReadLines(keys: seq<string>, m: map<string, string>)
    requires Printable(m) && Order.Distinct(keys) && forall i | 0 <= i < |keys| :: keys[i] in m
    ensures Read(Lines(keys, m)) == Restricted(keys, m)
  {
    if keys == [] {
      assert Restricted(keys, m) == map[];
    } else {
      var k, rest := keys[0], Lines(keys[1..], m);
      assert k in m && Lines(keys, m) == Line(k, m[k]) + rest;
      ReadLines(keys[1..], m);
      ReadLine(k, m[k], rest);
      RestrictedStep(keys, m);
    }
  }

  /** Print/read round trip for every map with printable keys and values. */
  lemma PropertiesRoundTrip(m: map<string, string>)
    requires Printable(m)
    ensures Read(Text(m)) == m
  {
    var keys := Order.SortSet(m.Keys);
    Order.SortSetSorts(m.Keys);
    ReadLines(keys, m);
    RestrictedToAll(keys, m);
  }

  lemma RestrictedToAll(keys: seq<string>, m: map<string, string>)
    requires forall k :: k in keys <==> k in m
    ensures Restricted(keys, m) == m
  {
  }

  // --- The hash input ---

  const NUL: char := '\0'

  /** What `hashData` feeds to the hasher. */
  function Frame(parts: seq<string>): string {
    if parts == [] then "" else parts[0] + [NUL] + Frame(parts[1..])
  }

  ghost predicate NulFree(parts: seq<string>) {
    forall i | 0 <= i < |parts| :: NUL !in parts[i]
  }

  /** NUL framing is injective on lists of NUL-free parts. */
  lemma {:induction false} FrameInjective(a: seq<string>, b: seq<string>)
    requires NulFree(a) && NulFree(b) && Frame(a) == Frame(b)
    ensures a == b
  {
    if a != [] && b != [] {
      IndexOfAppend(a[0], NUL, Frame(a[1..]));
      IndexOfAppend(b[0], NUL, Frame(b[1..]));
      assert a[0] == Frame(a)[..|a[0]|] && b[0] == Frame(b)[..|b[0]|];
      assert Frame(a[1..]) == Frame(a)[|a[0]| + 1..] && Frame(b[1..]) == Frame(b)[|b[0]| + 1..];
      FrameInjective(a[1..], b[1..]);
      assert a == [a[0]] + a[1..] && b == [b[0]] + b[1..];
    } else {
      assert a == [] ==> |Frame(a)| == 0;
      assert b == [] ==> |Frame(b)| == 0;
    }
  }

  lemma {:induction false} FrameAppend(a: seq<string>, b: seq<string>)
    ensures Frame(a + b) == Frame(a) + Frame(b)
  {
    if a == [] {
      assert a + b == b;
    } else {
      assert (a + b)[1..] == a[1..] + b;
      FrameAppend(a[1..], b);
    }
  }

  // --- Trino's catalogs ---

  const RESERVED := "lakekeeper"

  /** Parts contributed by the extra catalogs, in iteration order. */
  function ExtraParts(order: seq<string>, extra: map<string, string>): seq<string> {
    if order == [] then []
    else (if order[0] == RESERVED then [] else [order[0], Get(extra, order[0])]) + ExtraParts(order[1..], extra)
  }

  lemma {:induction false} ExtraPartsAppend(order: seq<string>, n: string, extra: map<string, string>)
    ensures ExtraParts(order + [n], extra)
            == ExtraParts(order, extra) + (if n == RESERVED then [] else [n, Get(extra, n)])
  {
    if order == [] {
      assert [n][1..] == [];
    } else {
      ExtraPartsAppend(order[1..], n, extra);
      assert (order + [n])[1..] == order[1..] + [n];
    }
  }

  function FileName(catalog: string): string {
    catalog + ".properties"
  }

  lemma FileNameInjective(m: string, n: string)
    requires FileName(m) == FileName(n)
    ensures m == n
  {
    assert m == FileName(m)[..|FileName(m)| - 11] && n == FileName(n)[..|FileName(n)| - 11];
  }

  /** The catalog files, written in iteration order over the operator's own one. */
  function Files(own: map<string, string>, order: seq<string>, extra: map<string, string>): map<string, string> {
    if order == [] then own
    else
      var n := order[|order| - 1];
      var rest := Files(own, order[..|order| - 1], extra);
      if n == RESERVED then rest else rest[FileName(n) := Get(extra, n)]
  }

  function OwnFile(lakekeeper: string, enabled: bool): map<string, string> {
    if enabled then map[FileName(RESERVED) := lakekeeper] else map[]
  }

  /** `trinoCatalogData`: the files and the hash input. */
  method TrinoCatalogData(lakekeeper: string, enabled: bool, extra: map<string, string>, order: seq<string>)
    returns (data: map<string, string>, parts: seq<string>)
    requires Enumerates(order, extra)
    ensures data == Files(OwnFile(lakekeeper, enabled), order, extra)
    ensures parts == (if enabled then [lakekeeper] else []) + ExtraParts(order, extra)
  {
    data := OwnFile(lakekeeper, enabled);
    parts := if enabled then [lakekeeper] else [];
    ghost var own, first := data, parts;
    for i := 0 to |order|
      invariant data == Files(own, order[..i], extra)
      invariant parts == first + ExtraParts(order[..i], extra)
    {
      var name := order[i];
      DataGrows(own, first, order, i, extra);
      if name != RESERVED {
        data := data[FileName(name) := Get(extra, name)];
        parts := parts + [name, Get(extra, name)];
      }
    }
    assert order[..|order|] == order;
  }

  /** One more catalog. */
  lemma DataGrows(own: map<string, string>, first: seq<string>, order: seq<string>, i: nat, extra: map<string, string>)
    requires i < |order|
    ensures Files(own, order[..i + 1], extra)
            == if order[i] == RESERVED then Files(own, order[..i], extra)
               else Files(own, order[..i], extra)[FileName(order[i]) := Get(extra, order[i])]
    ensures first + ExtraParts(order[..i + 1], extra)
            == first + ExtraParts(order[..i], extra)
               + if order[i] == RESERVED then [] else [order[i], Get(extra, order[i])]
  {
    assert order[..i + 1] == order[..i] + [order[i]];
    FilesAppend(own, order[..i], order[i], extra);
    PartsGrow(first, order[..i], order[i], extra);
  }

  lemma PartsGrow(first: seq<string>, order: seq<string>, n: string, extra: map<string, string>)
    ensures first + ExtraParts(order + [n], extra)
            == first + ExtraParts(order, extra) + if n == RESERVED then [] else [n, Get(extra, n)]
  {
    ExtraPartsAppend(order, n, extra);
  }

  lemma FilesAppend(own: map<string, string>, order: seq<string>, n: string, extra: map<string, string>)
    ensures Files(own, order + [n], extra)
            == if n == RESERVED then Files(own, order, extra)
               else Files(own, order, extra)[FileName(n) := Get(extra, n)]
  {
    assert (order + [n])[..|order|] == order;
  }

  lemma {:induction false} FilesExact(own: map<string, string>, order: seq<string>, extra: map<string, string>,
                                      n: string)
    ensures var files, f := Files(own, order, extra), FileName(n);
            && (f in files <==> f in own || (n in order && n != RESERVED))
            && (f in files ==> files[f] == if n in order && n != RESERVED then Get(extra, n) else own[f])
    ensures forall f | f in Files(own, order, extra) :: f in own || exists k :: k in order && f == FileName(k)
  {
    if order != [] {
      var last, init := order[|order| - 1], order[..|order| - 1];
      assert order == init + [last];
      FilesExact(own, init, extra, n);
      if FileName(last) == FileName(n) {
        FileNameInjective(last, n);
      }
    }
  }

  /** The catalog files are the same in every iteration order. */
  lemma FilesIgnoreOrder(own: map<string, string>, a: seq<string>, b: seq<string>, extra: map<string, string>)
    requires Enumerates(a, extra) && Enumerates(b, extra)
    ensures Files(own, a, extra) == Files(own, b, extra)
  {
    FilesIncluded(own, a, b, extra);
    FilesIncluded(own, b, a, extra);
    assert Files(own, a, extra).Keys == Files(own, b, extra).Keys;
  }

  lemma FilesIncluded(own: map<string, string>, a: seq<string>, b: seq<string>, extra: map<string, string>)
    requires Enumerates(a, extra) && Enumerates(b, extra)
    ensures forall f | f in Files(own, a, extra) ::
              f in Files(own, b, extra) && Files(own, b, extra)[f] == Files(own, a, extra)[f]
  {
    forall f | f in Files(own, a, extra)
      ensures f in Files(own, b, extra) && Files(own, b, extra)[f] == Files(own, a, extra)[f]
    {
      FilesExact(own, a, extra, "");
      if n :| n in a && f == FileName(n) {
        FilesExact(own, a, extra, n);
        FilesExact(own, b, extra, n);
      } else {
        OwnKept(own, a, extra, f);
        OwnKept(own, b, extra, f);
      }
    }
  }

  lemma {:induction false} OwnKept(own: map<string, string>, order: seq<string>, extra: map<string, string>, f: string)
    requires f in own && forall i | 0 <= i < |order| :: f != FileName(order[i])
    ensures f in Files(own, order, extra) && Files(own, order, extra)[f] == own[f]
  {
    if order != [] {
      OwnKept(own, order[..|order| - 1], extra, f);
    }
  }

  /** The files by name: the operator's own one when enabled, and one for each extra catalog
      that does not take its name. */
  lemma FilesNamed(lakekeeper: string, enabled: bool, order: seq<string>, extra: map<string, string>)
    requires Enumerates(order, extra)
    ensures var files := Files(OwnFile(lakekeeper, enabled), order, extra);
            && ("lakekeeper.properties" in files <==> enabled)
            && (enabled ==> files["lakekeeper.properties"] == lakekeeper)
            && (forall n | n in extra && n != "lakekeeper" ::
                  n + ".properties" in files && files[n + ".properties"] == extra[n])
            && (forall f | f in files ::
                  f == "lakekeeper.properties" || exists n :: n in extra && f == n + ".properties")
  {
    var own := OwnFile(lakekeeper, enabled);
    assert FileName(RESERVED) == "lakekeeper.properties";
    FilesExact(own, order, extra, RESERVED);
    forall n | n in extra && n != "lakekeeper"
      ensures n + ".properties" in Files(own, order, extra) && Files(own, order, extra)[n + ".properties"] == extra[n]
    {
      FilesExact(own, order, extra, n);
    }
    forall f | f in Files(own, order, extra)
      ensures f == "lakekeeper.properties" || exists n :: n in extra && f == n + ".properties"
    {
      if f !in own {
        var k :| k in order && f == FileName(k);
        assert k in extra && f == k + ".properties";
      }
    }
  }

  /** The hashed parts: name and text of every extra catalog one after the other. */
  lemma {:induction false} PartsExact(a: seq<string>, n: string, b: seq<string>, extra: map<string, string>)
    ensures ExtraParts([], extra) == []
    ensures ExtraParts(a + [n] + b, extra)
            == ExtraParts(a, extra)
               + (if n != "lakekeeper" && n in extra then [n, extra[n]] else if n == "lakekeeper" then [] else [n, ""])
               + ExtraParts(b, extra)
  {
    PartsAppend(a + [n], b, extra);
    ExtraPartsAppend(a, n, extra);
  }

  lemma {:induction false} PartsAppend(a: seq<string>, b: seq<string>, extra: map<string, string>)
    ensures ExtraParts(a + b, extra) == ExtraParts(a, extra) + ExtraParts(b, extra)
  {
    if a == [] {
      assert a + b == b;
    } else {
      assert (a + b)[1..] == a[1..] + b;
      PartsAppend(a[1..], b, extra);
    }
  }

  /** What is hashed for the catalogs. */
  function CatalogFrame(prefix: seq<string>, order: seq<string>, extra: map<string, string>): string {
    Frame(prefix + ExtraParts(order, extra))
  }

  ghost predicate Stable(prefix: seq<string>, extra: map<string, string>) {
    forall a, b | Enumerates(a, extra) && Enumerates(b, extra) ::
      CatalogFrame(prefix, a, extra) == CatalogFrame(prefix, b, extra)
  }

  ghost predicate AtMostOneCatalog(extra: map<string, string>) {
    forall m, n | m in extra && n in extra && m != RESERVED && n != RESERVED :: m == n
  }

  lemma {:induction false} NoParts(order: seq<string>, extra: map<string, string>)
    requires forall i | 0 <= i < |order| :: order[i] == RESERVED
    ensures ExtraParts(order, extra) == []
  {
    if order != [] {
      NoParts(order[1..], extra);
    }
  }

  lemma {:induction false} OnlyPart(order: seq<string>, extra: map<string, string>, n: string, at: nat)
    requires at < |order| && order[at] == n && n != RESERVED
    requires forall i | 0 <= i < |order| && i != at :: order[i] == RESERVED
    ensures ExtraParts(order, extra) == [n, Get(extra, n)]
  {
    if at == 0 {
      NoParts(order[1..], extra);
    } else {
      OnlyPart(order[1..], extra, n, at - 1);
    }
  }

  lemma OneCatalogParts(order: seq<string>, extra: map<string, string>, n: string)
    requires Enumerates(order, extra) && AtMostOneCatalog(extra) && n in extra && n != RESERVED
    ensures ExtraParts(order, extra) == [n, Get(extra, n)]
  {
    var at :| 0 <= at < |order| && order[at] == n;
    assert forall i | 0 <= i < |order| :: order[i] in order;
    OnlyPart(order, extra, n, at);
  }

  lemma SameParts(a: seq<string>, b: seq<string>, extra: map<string, string>)
    requires Enumerates(a, extra) && Enumerates(b, extra) && AtMostOneCatalog(extra)
    ensures ExtraParts(a, extra) == ExtraParts(b, extra)
  {
    if n :| n in extra && n != RESERVED {
      OneCatalogParts(a, extra, n);
      OneCatalogParts(b, extra, n);
    } else {
      assert forall i | 0 <= i < |a| :: a[i] in a;
      assert forall i | 0 <= i < |b| :: b[i] in b;
      NoParts(a, extra);
      NoParts(b, extra);
    }
  }

  lemma {:induction false} PartsNulFree(order: seq<string>, extra: map<string, string>)
    requires forall k | k in order :: NUL !in k && NUL !in Get(extra, k)
    ensures NulFree(ExtraParts(order, extra))
  {
    if order != [] {
      assert order[0] in order;
      PartsNulFree(order[1..], extra);
    }
  }

  lemma PairOrder(m: string, n: string, extra: map<string, string>) returns (order: seq<string>)
    requires m in extra && n in extra && m != n
    ensures Enumerates(order, extra) && order != [] && order[0] == m
  {
    var keys := extra.Keys - {m};
    var rest := Order.SortSet(keys);
    Order.SortSetSorts(keys);
    order := [m] + rest;
    assert m !in rest;
  }

  /** Two extra catalogs give two iteration orders with different framings. */
  lemma Unstable(prefix: seq<string>, extra: map<string, string>, m: string, n: string)
    returns (a: seq<string>, b: seq<string>)
    requires forall k | k in extra :: NUL !in k && NUL !in extra[k]
    requires m in extra && n in extra && m != RESERVED && n != RESERVED && m != n
    ensures Enumerates(a, extra) && Enumerates(b, extra)
    ensures CatalogFrame(prefix, a, extra) != CatalogFrame(prefix, b, extra)
  {
    a := PairOrder(m, n, extra);
    b := PairOrder(n, m, extra);
    PartsNulFree(a, extra);
    PartsNulFree(b, extra);
    var pa, pb := ExtraParts(a, extra), ExtraParts(b, extra);
    assert pa[0] == m && pb[0] == n;
    FrameAppend(prefix, pa);
    FrameAppend(prefix, pb);
    if CatalogFrame(prefix, a, extra) == CatalogFrame(prefix, b, extra) {
      var p := Frame(prefix);
      assert Frame(pa) == (p + Frame(pa))[|p|..] == (p + Frame(pb))[|p|..] == Frame(pb);
      FrameInjective(pa, pb);
    }
  }

  /** What is hashed for the catalogs is the same in every iteration order exactly when at
      most one extra catalog is configured besides the reserved name. */
  lemma CatalogsStableExact(prefix: seq<string>, extra: map<string, string>)
    requires forall k | k in extra :: NUL !in k && NUL !in extra[k]
    ensures Stable(prefix, extra) <==> AtMostOneCatalog(extra)
  {
    if AtMostOneCatalog(extra) {
      forall a, b | Enumerates(a, extra) && Enumerates(b, extra)
        ensures CatalogFrame(prefix, a, extra) == CatalogFrame(prefix, b, extra)
      {
        SameParts(a, b, extra);
      }
    } else {
      var m, n :| m in extra && n in extra && m != RESERVED && n != RESERVED && m != n;
      var a, b := Unstable(prefix, extra, m, n);
    }
  }
}

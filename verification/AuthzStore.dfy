/** The append-only OpenFGA store behind row filters and column masks: found by name over
    a paged listing, created once, and given a new authorization model only when the shape
    of the wanted model differs from the latest one. */
module AuthzStore {
  import opened Sequences
  import opened AccessSpec
  import opened AuthzModel

  /** Models in the order they were written; the latest one is last. */
  datatype Store = Store(id: string, name: string, deleted: bool, models: seq<Model>)

  datatype Result = Ok(id: string) | Failed

  /** A write request that the server performs may still look failed to the operator. */
  datatype Write = Done | Refused | ReplyLost

  /** How the read of the latest model ends: with what the store has, with status 404, which
      counts as no model yet, or not at all. */
  datatype Read = Models | NotFound | NoReply

  datatype Faults = Faults(listed: bool, create: Write, read: Read, write: Write)

  predicate Live(s: Store, name: string) {
    s.name == name && !s.deleted
  }

  // --- Finding the store over pages ---

  /** Position of the first live store of that name, or the length when there is none. */
  function FirstLive(stores: seq<Store>, name: string): (i: nat)
    ensures i <= |stores|
    ensures forall k | 0 <= k < i :: !Live(stores[k], name)
    ensures i < |stores| ==> Live(stores[i], name)
  {
    if stores == [] || Live(stores[0], name) then 0 else 1 + FirstLive(stores[1..], name)
  }

  /** Page by page: the request for page `failing` fails if it is reached. */
  function Search(pages: seq<seq<Store>>, name: string, failing: nat): Result {
    if pages == [] then Ok("")
    else if failing == 0 then Failed
    else
      var i := FirstLive(pages[0], name);
      if i < |pages[0]| then Ok(pages[0][i].id) else Search(pages[1..], name, failing - 1)
  }

  lemma {:induction false} FirstLiveAppend(a: seq<Store>, b: seq<Store>, name: string)
    ensures FirstLive(a + b, name)
            == if FirstLive(a, name) < |a| then FirstLive(a, name) else |a| + FirstLive(b, name)
  {
    var ab, i, k := a + b, FirstLive(a, name), FirstLive(a + b, name);
    assert forall j | 0 <= j < |a| :: ab[j] == a[j];
    assert forall j | 0 <= j < |b| :: ab[|a| + j] == b[j];
    if i == |a| {
      assert k >= |a|;
      var j := FirstLive(b, name);
      assert j < |b| ==> Live(ab[|a| + j], name);
      assert k < |ab| ==> Live(b[k - |a|], name);
    }
  }

  /** However the server cuts the listing into pages, a search that does not fail finds the
      first live store of that name, or "" when the whole listing has none. */
  lemma {:induction false} SearchExact(pages: seq<seq<Store>>, name: string, failing: nat)
    requires Search(pages, name, failing).Ok?
    ensures var stores := Flatten(pages);
            var i := FirstLive(stores, name);
            Search(pages, name, failing).id == if i < |stores| then stores[i].id else ""
  {
    if pages != [] {
      FirstLiveAppend(pages[0], Flatten(pages[1..]), name);
      if FirstLive(pages[0], name) == |pages[0]| {
        SearchExact(pages[1..], name, failing - 1);
      }
    }
  }

  ghost predicate HasLive(page: seq<Store>, name: string) {
    exists i :: 0 <= i < |page| && page[i].name == name && !page[i].deleted
  }

  /** The search fails exactly when it reaches the failing page: no page before it has a live
      store of that name. */
  ghost predicate FailingReached(pages: seq<seq<Store>>, name: string, failing: nat) {
    failing < |pages| && forall j | 0 <= j < failing :: !HasLive(pages[j], name)
  }

  lemma {:induction false} SearchFails(pages: seq<seq<Store>>, name: string, failing: nat)
    ensures Search(pages, name, failing).Failed? <==> FailingReached(pages, name, failing)
  {
    if pages != [] && failing > 0 {
      SearchFails(pages[1..], name, failing - 1);
      HasLiveExact(pages[0], name);
      assert forall j | 0 <= j < |pages| - 1 :: pages[1..][j] == pages[j + 1];
      if FailingReached(pages[1..], name, failing - 1) && !HasLive(pages[0], name) {
        assert forall j | 0 < j < failing :: pages[1..][j - 1] == pages[j];
      }
    }
  }

  /** Ids of the live stores of a name, in listing order. */
  ghost function LiveIds(stores: seq<Store>, name: string): seq<string> {
    if stores == [] then []
    else
      var last := stores[|stores| - 1];
      LiveIds(stores[..|stores| - 1], name) + (if Live(last, name) then [last.id] else [])
  }

  lemma {:induction false} FirstIsHead(stores: seq<Store>, name: string)
    ensures var i, ids := FirstLive(stores, name), LiveIds(stores, name);
            if i < |stores| then ids != [] && ids[0] == stores[i].id else ids == []
  {
    if stores != [] {
      var n := |stores| - 1;
      FirstIsHead(stores[..n], name);
      assert stores == stores[..n] + [stores[n]];
      FirstLiveAppend(stores[..n], [stores[n]], name);
    }
  }

  /** Pages that list the live stores of the name as they are lead to the first of them. */
  lemma {:induction false} FoundIsFirst(pages: seq<seq<Store>>, stores: seq<Store>, name: string)
    requires LiveIds(Flatten(pages), name) == LiveIds(stores, name)
    ensures var i, j := FirstLive(Flatten(pages), name), FirstLive(stores, name);
            if j < |stores| then i < |Flatten(pages)| && Flatten(pages)[i].id == stores[j].id else i == |Flatten(pages)|
  {
    FirstIsHead(stores, name);
    FirstIsHead(Flatten(pages), name);
  }

  /** `findAuthzStore`; the pages are what the server answered, each at its own moment. */
  method FindAuthzStore(pages: seq<seq<Store>>, name: string, failing: nat) returns (r: Result)
    ensures r == Search(pages, name, failing)
    ensures r.Failed? <==> FailingReached(pages, name, failing)
    ensures r.Ok? ==>
              var stores := Flatten(pages);
              var i := FirstLive(stores, name);
              r.id == if i < |stores| then stores[i].id else ""
  {
    SearchFails(pages, name, failing);
    if Search(pages, name, failing).Ok? {
      SearchExact(pages, name, failing);
    }
    var p := 0;
    while p < |pages|
      invariant 0 <= p <= |pages| && p <= failing
      invariant Search(pages[p..], name, failing - p) == Search(pages, name, failing)
    {
      if p == failing {
        return Failed;
      }
      assert pages[p..][0] == pages[p] && pages[p..][1..] == pages[p + 1..];
      var i := FirstInPage(pages[p], name);
      if i < |pages[p]| {
        return Ok(pages[p][i].id);
      }
      p := p + 1;
    }
    r := Ok("");
  }

  method FirstInPage(page: seq<Store>, name: string) returns (i: nat)
    ensures i == FirstLive(page, name)
  {
    i := 0;
    while i < |page| && !Live(page[i], name)
      invariant i <= |page|
      invariant forall k | 0 <= k < i :: !Live(page[k], name)
    {
      i := i + 1;
    }
  }

  // --- One call ---

  ghost function ShapeOfModel(m: Model): Shape {
    ShapeOf(m.definitions)
  }

  ghost predicate Matches(models: seq<Model>, m: Model) {
    models != [] && ShapeOfModel(models[|models| - 1]) == ShapeOfModel(m)
  }

  ghost function WithModel(s: Store, m: Model): Store {
    s.(models := s.models + [m])
  }

  /** What the call does once the store at position i is known. */
  ghost function Settle(stores: seq<Store>, i: nat, m: Model, f: Faults): (seq<Store>, Result)
    requires i < |stores|
  {
    if f.read.NoReply? then (stores, Failed)
    else if f.read.Models? && Matches(stores[i].models, m) then (stores, Ok(stores[i].id))
    else
      match f.write
      case Refused => (stores, Failed)
      case ReplyLost => (stores[i := WithModel(stores[i], m)], Failed)
      case Done => (stores[i := WithModel(stores[i], m)], Ok(stores[i].id))
  }

  ghost function Step(stores: seq<Store>, name: string, m: Model, f: Faults, freshId: string): (seq<Store>, Result) {
    var i := FirstLive(stores, name);
    var created := stores + [Store(freshId, name, false, [])];
    if !f.listed then (stores, Failed)
    else if i < |stores| then Settle(stores, i, m, f)
    else
      match f.create
      case Refused => (stores, Failed)
      case ReplyLost => (created, Failed)
      case Done => Settle(created, |stores|, m, f)
  }

  // --- When a call succeeds ---

  /** The store at position i is the first live one of the name. */
  ghost predicate FirstAt(stores: seq<Store>, name: string, i: nat) {
    && i < |stores| && stores[i].name == name && !stores[i].deleted
    && forall k | 0 <= k < i :: stores[k].name != name || stores[k].deleted
  }

  /** The model read as the latest one has the wanted shape. */
  ghost predicate ReadsCurrent(stores: seq<Store>, name: string, m: Model, f: Faults) {
    f.read == Models && exists i: nat :: FirstAt(stores, name, i) && Matches(stores[i].models, m)
  }

  /** The requests that are needed are answered: the listing, the creation of a store that is
      not there, the read, and the write unless the latest model is as wanted. */
  ghost predicate CallSucceeds(stores: seq<Store>, name: string, m: Model, f: Faults) {
    && f.listed
    && (HasLive(stores, name) || f.create == Done)
    && f.read != NoReply
    && (ReadsCurrent(stores, name, m, f) || f.write == Done)
  }

  lemma {:induction false} FirstAtExact(stores: seq<Store>, name: string, i: nat)
    ensures FirstAt(stores, name, i) <==> i == FirstLive(stores, name) < |stores|
  {
    var first := FirstLive(stores, name);
    assert forall k | 0 <= k < first :: !Live(stores[k], name);
    if FirstAt(stores, name, i) {
      assert Live(stores[i], name);
      assert first < |stores| ==> Live(stores[first], name);
    }
  }

  lemma {:induction false} HasLiveExact(stores: seq<Store>, name: string)
    ensures HasLive(stores, name) <==> FirstLive(stores, name) < |stores|
  {
    var first := FirstLive(stores, name);
    FirstAtExact(stores, name, first);
    if i :| 0 <= i < |stores| && stores[i].name == name && !stores[i].deleted {
      assert Live(stores[i], name);
    }
  }

  lemma {:induction false} CurrentAtFirst(stores: seq<Store>, name: string, m: Model, f: Faults)
    ensures var i := FirstLive(stores, name);
            ReadsCurrent(stores, name, m, f) <==> i < |stores| && f.read.Models? && Matches(stores[i].models, m)
  {
    forall i: nat
      ensures FirstAt(stores, name, i) <==> i == FirstLive(stores, name) < |stores|
    {
      FirstAtExact(stores, name, i);
    }
  }

  /** A call succeeds if and only if the requests it needs are answered, and it then returns
      the id of the first live store, or of the one it created. */
  lemma {:induction false} ResultExact(stores: seq<Store>, name: string, m: Model, f: Faults, freshId: string)
    ensures var r := Step(stores, name, m, f, freshId).1;
            && (r.Ok? <==> CallSucceeds(stores, name, m, f))
            && (r.Ok? && !HasLive(stores, name) ==> r.id == freshId)
            && (r.Ok? ==> forall i: nat | FirstAt(stores, name, i) :: r.id == stores[i].id)
  {
    HasLiveExact(stores, name);
    CurrentAtFirst(stores, name, m, f);
    var i := FirstLive(stores, name);
    if i < |stores| {
      SettleResult(stores, i, m, f);
    } else {
      SettleResult(stores + [Store(freshId, name, false, [])], i, m, f);
    }
    forall k: nat | FirstAt(stores, name, k)
      ensures k == i
    {
      FirstAtExact(stores, name, k);
    }
  }

  lemma {:induction false} SettleResult(stores: seq<Store>, i: nat, m: Model, f: Faults)
    requires i < |stores|
    ensures var r := Settle(stores, i, m, f).1;
            && (r.Ok? <==>
                  f.read != NoReply && ((f.read == Models && Matches(stores[i].models, m)) || f.write == Done))
            && (r.Ok? ==> r.id == stores[i].id)
  {
  }

  /** `authzModelMatches`, on the latest of the models read. */
  method AuthzModelMatches(models: seq<Model>, desired: Model) returns (b: bool)
    ensures b <==> Matches(models, desired)
  {
    if models == [] {
      return false;
    }
    var current := AuthzModelShape(models[|models| - 1]);
    var wanted := AuthzModelShape(desired);
    b := current == wanted;
  }

  lemma {:induction false} AddedIsFirst(stores: seq<Store>, added: Store, name: string)
    requires Live(added, name) && FirstLive(stores, name) == |stores|
    ensures FirstLive(stores + [added], name) == |stores|
  {
    FirstLiveAppend(stores, [added], name);
  }

  class OpenFga {
    var stores: seq<Store>

    /** Store ids are never empty. */
    ghost predicate Valid()
      reads this
    {
      forall i | 0 <= i < |stores| :: stores[i].id != ""
    }

    constructor ()
      ensures Valid() && stores == []
    {
      stores := [];
    }

    method CreateStore(name: string, freshId: string, fault: Write) returns (r: Result)
      requires Valid() && freshId != ""
      modifies this
      ensures Valid()
      ensures stores == if fault.Refused? then old(stores) else old(stores) + [Store(freshId, name, false, [])]
      ensures r == if fault.Done? then Ok(freshId) else Failed
    {
      if !fault.Refused? {
        stores := stores + [Store(freshId, name, false, [])];
      }
      r := if fault.Done? then Ok(freshId) else Failed;
    }

    method WriteModel(i: nat, m: Model, fault: Write) returns (r: Result)
      requires Valid() && i < |stores|
      modifies this
      ensures Valid()
      ensures stores == if fault.Refused? then old(stores) else old(stores)[i := WithModel(old(stores)[i], m)]
      ensures r == if fault.Done? then Ok(old(stores)[i].id) else Failed
    {
      r := if fault.Done? then Ok(stores[i].id) else Failed;
      if !fault.Refused? {
        stores := stores[i := stores[i].(models := stores[i].models + [m])];
      }
    }

    /** `EnsureAuthzStore`. The pages may have been answered at different moments: other stores
        may come and go in between, but the live stores of the name are listed as they are. */
    method CallStore(name: string, types: seq<AuthzType>, pages: seq<seq<Store>>, failing: nat,
                     f: Faults, freshId: string)
      returns (r: Result)
      requires Valid() && freshId != "" && LiveIds(Flatten(pages), name) == LiveIds(stores, name)
      requires forall k | 0 <= k < |Flatten(pages)| :: Flatten(pages)[k].id != ""
      requires f.listed == Search(pages, name, failing).Ok?
      modifies this
      ensures Valid()
      ensures (stores, r) == Step(old(stores), name, ModelOf(types), f, freshId)
    {
      var found := FindAuthzStore(pages, name, failing);
      if found.Failed? {
        return Failed;
      }
      FoundIsFirst(pages, stores, name);
      var desired := AuthzModelJSON(types);
      var at: nat;
      if found.id == "" {
        AddedIsFirst(stores, Store(freshId, name, false, []), name);
        var created := CreateStore(name, freshId, f.create);
        if created.Failed? {
          return Failed;
        }
        at := |stores| - 1;
      } else {
        at := FirstInPage(stores, name);
      }
      r := SettleModel(at, desired, f);
    }

    /** `EnsureAuthzStore`, and exactly when it succeeds. */
    method EnsureAuthzStore(name: string, types: seq<AuthzType>, pages: seq<seq<Store>>, failing: nat,
                            f: Faults, freshId: string)
      returns (r: Result)
      requires Valid() && freshId != "" && LiveIds(Flatten(pages), name) == LiveIds(stores, name)
      requires forall k | 0 <= k < |Flatten(pages)| :: Flatten(pages)[k].id != ""
      requires f.listed == Search(pages, name, failing).Ok?
      modifies this
      ensures Valid()
      ensures (stores, r) == Step(old(stores), name, ModelOf(types), f, freshId)
      ensures r.Ok? <==> CallSucceeds(old(stores), name, ModelOf(types), f)
    {
      ResultExact(stores, name, ModelOf(types), f, freshId);
      r := CallStore(name, types, pages, failing, f, freshId);
    }

    /** The second half of the call: read the latest model, compare, write. */
    method SettleModel(at: nat, desired: Model, f: Faults) returns (r: Result)
      requires Valid() && at < |stores|
      modifies this
      ensures Valid()
      ensures (stores, r) == Settle(old(stores), at, desired, f)
    {
      if f.read.NoReply? {
        return Failed;
      }
      var models := if f.read.NotFound? then [] else stores[at].models;
      var matches := AuthzModelMatches(models, desired);
      if matches {
        return Ok(stores[at].id);
      }
      r := WriteModel(at, desired, f.write);
    }
  }

  // --- Runs ---

  ghost function LiveStores(stores: seq<Store>, name: string): seq<Store> {
    if stores == [] then []
    else
      var last := stores[|stores| - 1];
      LiveStores(stores[..|stores| - 1], name) + (if Live(last, name) then [last] else [])
  }

  /** One call of a run: the spec it was made for, and the whole server listing it met. */
  datatype Call = Call(spec: AuthzSpec, before: seq<Store>, faults: Faults, freshId: string)

  ghost function Wanted(c: Call): Model {
    ModelOf(Canonical(Pairs(c.spec)))
  }

  ghost function After(c: Call, name: string): seq<Store> {
    Step(c.before, name, Wanted(c), c.faults, c.freshId).0
  }

  /** The live stores of the name after a run that began with the ones in base. */
  ghost function Final(calls: seq<Call>, name: string, base: seq<Store>): seq<Store> {
    if calls == [] then base else LiveStores(After(calls[|calls| - 1], name), name)
  }

  /** A run begins with any live stores of the name, and between calls anything may happen to
      the other stores. */
  ghost predicate IsRun(calls: seq<Call>, name: string, base: seq<Store>) {
    calls == [] ||
    var n := |calls| - 1;
    IsRun(calls[..n], name, base) && LiveStores(calls[n].before, name) == Final(calls[..n], name, base)
  }

  /** The call came to compare models, and if it had to write one the server wrote it. */
  ghost predicate Settled(c: Call, name: string) {
    var i := FirstLive(c.before, name);
    && c.faults.listed && !c.faults.read.NoReply?
    && (i == |c.before| ==> c.faults.create.Done?)
    && (|| (c.faults.read.Models? && i < |c.before| && Matches(c.before[i].models, Wanted(c)))
        || !c.faults.write.Refused?)
  }

  /** A shape that was wanted; blind when the call could not compare it with the latest one. */
  datatype Entry = Entry(shape: Shape, blind: bool)

  /** Models that were there before count as written blindly. */
  ghost function Given(models: seq<Model>): (h: seq<Entry>)
    ensures |h| == |models| && forall i | 0 <= i < |models| :: h[i] == Entry(ShapeOfModel(models[i]), true)
  {
    seq(|models|, i requires 0 <= i < |models| => Entry(ShapeOfModel(models[i]), true))
  }

  ghost function ModelsOf(live: seq<Store>): seq<Model> {
    if live == [] then [] else live[0].models
  }

  ghost function History(calls: seq<Call>, name: string, base: seq<Store>): seq<Entry> {
    if calls == [] then Given(ModelsOf(base))
    else
      var last := calls[|calls| - 1];
      Extend(History(calls[..|calls| - 1], name, base), Settled(last, name), last)
  }

  ghost function Extend(history: seq<Entry>, settled: bool, c: Call): seq<Entry> {
    if settled then history + [Entry(ShapeOfModel(Wanted(c)), c.faults.read.NotFound?)] else history
  }

  ghost function Shapes(models: seq<Model>): (s: seq<Shape>)
    ensures |s| == |models| && forall i | 0 <= i < |models| :: s[i] == ShapeOfModel(models[i])
  {
    seq(|models|, i requires 0 <= i < |models| => ShapeOfModel(models[i]))
  }

  /** The shapes written: adjacent repetitions are left out unless they were wanted blindly. */
  ghost function Kept(h: seq<Entry>): seq<Shape> {
    if h == [] then []
    else
      var n := |h| - 1;
      if n > 0 && !h[n].blind && h[n].shape == h[n - 1].shape then Kept(h[..n]) else Kept(h[..n]) + [h[n].shape]
  }

  /** How many times a sequence changes from one element to the next. */
  ghost function Changes<T>(s: seq<T>): nat {
    if |s| <= 1 then 0
    else Changes(s[..|s| - 1]) + (if s[|s| - 1] == s[|s| - 2] then 0 else 1)
  }

  lemma {:induction false} KeptLast(h: seq<Entry>)
    requires h != []
    ensures Kept(h) != [] && Kept(h)[|Kept(h)| - 1] == h[|h| - 1].shape
  {
    if |h| > 1 {
      KeptLast(h[..|h| - 1]);
    }
  }

  lemma {:induction false} KeptGiven(models: seq<Model>)
    ensures Kept(Given(models)) == Shapes(models)
  {
    if models != [] {
      var n := |models| - 1;
      assert Given(models)[..n] == Given(models[..n]);
      KeptGiven(models[..n]);
      assert models == models[..n] + [models[n]];
    }
  }

  lemma {:induction false} LiveStoresExact(stores: seq<Store>, name: string)
    ensures FirstLive(stores, name) == |stores| <==> LiveStores(stores, name) == []
    ensures forall k | 0 <= k < |stores| && Live(stores[k], name) :: stores[k] in LiveStores(stores, name)
  {
    if stores != [] {
      var n := |stores| - 1;
      LiveStoresExact(stores[..n], name);
      assert stores == stores[..n] + [stores[n]];
      FirstLiveAppend(stores[..n], [stores[n]], name);
    }
  }

  lemma {:induction false} LiveStep(init: seq<Store>, last: Store, name: string)
    ensures LiveStores(init + [last], name) == LiveStores(init, name) + (if Live(last, name) then [last] else [])
  {
    assert (init + [last])[..|init|] == init;
  }

  lemma {:induction false} LiveSplit(a: seq<Store>, b: seq<Store>, name: string)
    ensures LiveStores(a + b, name) == LiveStores(a, name) + LiveStores(b, name)
  {
    if b == [] {
      assert a + b == a;
    } else {
      var n := |b| - 1;
      assert a + b == (a + b[..n]) + [b[n]];
      LiveStep(a + b[..n], b[n], name);
      LiveSplit(a, b[..n], name);
    }
  }

  lemma {:induction false} LiveAround(before: seq<Store>, s: Store, after: seq<Store>, name: string)
    requires Live(s, name)
    ensures LiveStores(before + [s] + after, name) == LiveStores(before, name) + [s] + LiveStores(after, name)
  {
    LiveSplit(before + [s], after, name);
    LiveStep(before, s, name);
  }

  lemma {:induction false} ReplaceLive(stores: seq<Store>, name: string, i: nat, s: Store)
    requires i < |stores| && Live(stores[i], name) && Live(s, name) && |LiveStores(stores, name)| <= 1
    ensures LiveStores(stores, name) == [stores[i]]
    ensures LiveStores(stores[i := s], name) == [s]
  {
    var before, after := stores[..i], stores[i + 1..];
    assert stores == before + [stores[i]] + after && stores[i := s] == before + [s] + after;
    LiveAround(before, stores[i], after, name);
    LiveAround(before, s, after, name);
  }

  lemma {:induction false} LiveAppend(stores: seq<Store>, s: Store, name: string)
    requires Live(s, name)
    ensures LiveStores(stores + [s], name) == LiveStores(stores, name) + [s]
  {
    assert (stores + [s])[..|stores|] == stores;
  }

  ghost predicate Tracks(live: seq<Store>, history: seq<Entry>) {
    && |live| <= 1
    && (live == [] ==> history == [])
    && Shapes(ModelsOf(live)) == Kept(history)
  }

  lemma {:induction false} ShapesAppend(models: seq<Model>, m: Model)
    ensures Shapes(models + [m]) == Shapes(models) + [ShapeOfModel(m)]
  {
  }

  lemma {:induction false} TracksWrite(models: seq<Model>, history: seq<Entry>, m: Model, blind: bool)
    requires Shapes(models) == Kept(history)
    ensures var longer := history + [Entry(ShapeOfModel(m), blind)];
            if !blind && Matches(models, m) then Shapes(models) == Kept(longer)
            else Shapes(models + [m]) == Kept(longer)
  {
    var longer := history + [Entry(ShapeOfModel(m), blind)];
    assert longer[..|history|] == history;
    ShapesAppend(models, m);
    if history != [] {
      KeptLast(history);
    }
  }

  lemma {:induction false} TracksSettle(stores: seq<Store>, i: nat, name: string, c: Call, history: seq<Entry>)
    requires i < |stores| && Live(stores[i], name)
    requires Tracks(LiveStores(stores, name), history) && LiveStores(stores, name) == [stores[i]]
    ensures var m, f := Wanted(c), c.faults;
            var settled := !f.read.NoReply? && ((f.read.Models? && Matches(stores[i].models, m)) || !f.write.Refused?);
            Tracks(LiveStores(Settle(stores, i, m, f).0, name), Extend(history, settled, c))
  {
    TracksWrite(stores[i].models, history, Wanted(c), c.faults.read.NotFound?);
    ReplaceLive(stores, name, i, WithModel(stores[i], Wanted(c)));
  }

  lemma {:induction false} TracksKnown(c: Call, name: string, history: seq<Entry>)
    requires Tracks(LiveStores(c.before, name), history) && FirstLive(c.before, name) < |c.before|
    ensures Tracks(LiveStores(After(c, name), name), Extend(history, Settled(c, name), c))
  {
    var stores, i := c.before, FirstLive(c.before, name);
    ReplaceLive(stores, name, i, stores[i]);
    if c.faults.listed {
      TracksSettle(stores, i, name, c, history);
    }
  }

  lemma {:induction false} TracksNew(c: Call, name: string, history: seq<Entry>)
    requires Tracks(LiveStores(c.before, name), history) && FirstLive(c.before, name) == |c.before|
    ensures Tracks(LiveStores(After(c, name), name), Extend(history, Settled(c, name), c))
  {
    var stores := c.before;
    var added := Store(c.freshId, name, false, []);
    LiveStoresExact(stores, name);
    LiveAppend(stores, added, name);
    assert LiveStores(stores + [added], name) == [added];
    assert Shapes([]) == [];
    if c.faults.listed && c.faults.create.Done? {
      TracksSettle(stores + [added], |stores|, name, c, history);
    }
  }

  lemma {:induction false} TracksCall(c: Call, name: string, history: seq<Entry>)
    requires Tracks(LiveStores(c.before, name), history)
    ensures Tracks(LiveStores(After(c, name), name), Extend(history, Settled(c, name), c))
  {
    if FirstLive(c.before, name) < |c.before| {
      TracksKnown(c, name, history);
    } else {
      TracksNew(c, name, history);
    }
  }

  /** Over any run, from no store or from one with any models, with any faults and any
      activity on other stores, at most one store of the name is ever live. Its models are
      the ones it began with and then the shapes of the settled calls, where a shape that
      repeats the one before it is written again exactly when the read answered 404. */
  lemma {:induction false} RunExact(calls: seq<Call>, name: string, base: seq<Store>)
    requires |base| <= 1 && IsRun(calls, name, base)
    ensures Tracks(Final(calls, name, base), History(calls, name, base))
  {
    if calls == [] {
      KeptGiven(ModelsOf(base));
    } else {
      var n := |calls| - 1;
      RunExact(calls[..n], name, base);
      TracksCall(calls[n], name, History(calls[..n], name, base));
    }
  }

  ghost predicate FaultFree(f: Faults) {
    f.listed && f.read.Models? && f.create.Done? && f.write.Done?
  }

  ghost function EffectivePairs(calls: seq<Call>): (e: seq<set<Pair>>)
    ensures |e| == |calls| && forall i | 0 <= i < |calls| :: e[i] == Effective(Pairs(calls[i].spec))
  {
    seq(|calls|, i requires 0 <= i < |calls| => Effective(Pairs(calls[i].spec)))
  }

  lemma ChangesAppend<T>(s: seq<T>, x: T)
    ensures Changes(s + [x]) == Changes(s) + (if s == [] || x == s[|s| - 1] then 0 else 1)
  {
    assert (s + [x])[..|s|] == s;
  }

  lemma {:induction false} HistoryAppend(calls: seq<Call>, c: Call, name: string, base: seq<Store>)
    requires FaultFree(c.faults)
    ensures History(calls + [c], name, base) == History(calls, name, base) + [Entry(ShapeOfModel(Wanted(c)), false)]
  {
    assert (calls + [c])[..|calls|] == calls;
  }

  lemma {:induction false} EffectiveAppend(calls: seq<Call>, c: Call)
    ensures EffectivePairs(calls + [c]) == EffectivePairs(calls) + [Effective(Pairs(c.spec))]
  {
  }

  lemma {:induction false} KeptAppend(h: seq<Entry>, shape: Shape)
    ensures |Kept(h + [Entry(shape, false)])|
            == |Kept(h)| + (if h != [] && h[|h| - 1].shape == shape then 0 else 1)
  {
    assert (h + [Entry(shape, false)])[..|h|] == h;
  }

  lemma LastShapes(a: Call, b: Call)
    ensures ShapeOfModel(Wanted(a)) == ShapeOfModel(Wanted(b)) <==> Effective(Pairs(a.spec)) == Effective(Pairs(b.spec))
  {
    ShapesEqualExact(Pairs(a.spec), Pairs(b.spec));
  }

  /** How many models the first call of a fault-free run writes. */
  ghost function FirstWrite(models: seq<Model>, c: Call): nat {
    if Matches(models, Wanted(c)) then 0 else 1
  }

  /** A fault-free history ends in what the last call wanted, and has the expected length. */
  ghost predicate Counted(h: seq<Entry>, calls: seq<Call>, models: seq<Model>)
    requires calls != []
  {
    && h != [] && h[|h| - 1].shape == ShapeOfModel(Wanted(calls[|calls| - 1]))
    && |Kept(h)| == |models| + FirstWrite(models, calls[0]) + Changes(EffectivePairs(calls))
  }

  lemma {:induction false} CountedFirst(c: Call, name: string, base: seq<Store>)
    requires FaultFree(c.faults)
    ensures Counted(History([c], name, base), [c], ModelsOf(base))
  {
    var models := ModelsOf(base);
    assert [] + [c] == [c];
    HistoryAppend([], c, name, base);
    KeptGiven(models);
    KeptAppend(Given(models), ShapeOfModel(Wanted(c)));
  }

  lemma {:induction false} CountedStep(h: seq<Entry>, calls: seq<Call>, c: Call, models: seq<Model>)
    requires calls != [] && Counted(h, calls, models)
    ensures Counted(h + [Entry(ShapeOfModel(Wanted(c)), false)], calls + [c], models)
  {
    KeptAppend(h, ShapeOfModel(Wanted(c)));
    EffectiveAppend(calls, c);
    ChangesAppend(EffectivePairs(calls), Effective(Pairs(c.spec)));
    LastShapes(calls[|calls| - 1], c);
  }

  lemma {:induction false} FaultFreeCounted(calls: seq<Call>, name: string, base: seq<Store>)
    requires calls != [] && forall k | 0 <= k < |calls| :: FaultFree(calls[k].faults)
    ensures Counted(History(calls, name, base), calls, ModelsOf(base))
  {
    var init, last := calls[..|calls| - 1], calls[|calls| - 1];
    assert calls == init + [last];
    if init == [] {
      CountedFirst(last, name, base);
    } else {
      FaultFreeCounted(init, name, base);
      HistoryAppend(init, last, name, base);
      CountedStep(History(init, name, base), init, last, ModelsOf(base));
    }
  }

  /** Exact growth: after a fault-free run of at least one call there is one live store. To
      the models it began with, the run added one unless the first wanted shape was already
      the latest, and one for each time the configured type/relation pairs changed from one
      spec to the next. From no store, that is one plus the changes. */
  lemma {:induction false} ModelCountExact(calls: seq<Call>, name: string, base: seq<Store>)
    requires calls != [] && |base| <= 1 && IsRun(calls, name, base)
    requires forall k | 0 <= k < |calls| :: FaultFree(calls[k].faults)
    ensures |Final(calls, name, base)| == 1
    ensures |Final(calls, name, base)[0].models|
            == |ModelsOf(base)| + FirstWrite(ModelsOf(base), calls[0]) + Changes(EffectivePairs(calls))
    ensures base == [] ==> |Final(calls, name, base)[0].models| == 1 + Changes(EffectivePairs(calls))
  {
    RunExact(calls, name, base);
    FaultFreeCounted(calls, name, base);
  }

  /** A 404 on the read is the one way to write the same shape twice in a row. */
  lemma {:induction false} NotFoundRepeats(spec: AuthzSpec, freshId: string, name: string) returns (calls: seq<Call>)
    ensures IsRun(calls, name, []) && |calls| == 2 && calls[0].spec == calls[1].spec == spec
    ensures |Final(calls, name, [])| == 1 && |Final(calls, name, [])[0].models| == 2
  {
    var m := ModelOf(Canonical(Pairs(spec)));
    var once, twice := Store(freshId, name, false, [m]), Store(freshId, name, false, [m, m]);
    var first := Call(spec, [], Faults(true, Done, Models, Done), freshId);
    var second := Call(spec, [once], Faults(true, Done, NotFound, Done), freshId);
    FirstCall(first, name, once);
    SecondCall(second, name, once, twice);
    OneLive(once, name);
    OneLive(twice, name);
    calls := [first, second];
    assert calls[..1] == [first] && [first][..0] == [];
    assert IsRun([first], name, []) && Final([first], name, []) == [once];
  }

  lemma {:induction false} OneLive(s: Store, name: string)
    requires Live(s, name)
    ensures LiveStores([s], name) == [s]
  {
    LiveStep([], s, name);
    assert [] + [s] == [s];
  }

  lemma FirstCall(c: Call, name: string, once: Store)
    requires c.before == [] && FaultFree(c.faults) && once == Store(c.freshId, name, false, [Wanted(c)])
    ensures After(c, name) == [once]
  {
    var bare := Store(c.freshId, name, false, []);
    assert FirstLive([], name) == 0 && [] + [bare] == [bare];
    assert WithModel(bare, Wanted(c)) == once;
    assert [bare][0 := once] == [once];
  }

  lemma SecondCall(c: Call, name: string, once: Store, twice: Store)
    requires c.before == [once] && c.faults == Faults(true, Done, NotFound, Done) && Live(once, name)
    requires twice == WithModel(once, Wanted(c))
    ensures After(c, name) == [twice]
  {
    assert FirstLive([once], name) == 0;
    assert [once][0 := twice] == [twice];
  }

  /** A successful call returns the live store of the name, whose latest model then has the
      wanted shape. */
  lemma SuccessMeansCurrent(c: Call, name: string)
    requires Step(c.before, name, Wanted(c), c.faults, c.freshId).1.Ok?
    ensures var stores, i := After(c, name), FirstLive(After(c, name), name);
            && i < |stores|
            && Step(c.before, name, Wanted(c), c.faults, c.freshId).1 == Ok(stores[i].id)
            && Matches(stores[i].models, Wanted(c))
  {
    var at := FirstLive(c.before, name);
    var stores := After(c, name);
    var found := if at < |c.before| then c.before else c.before + [Store(c.freshId, name, false, [])];
    SettleMeansCurrent(found, at, Wanted(c), c.faults);
    FirstLiveIs(stores, name, at);
  }

  lemma {:induction false} SettleMeansCurrent(stores: seq<Store>, i: nat, m: Model, f: Faults)
    requires i < |stores| && Settle(stores, i, m, f).1.Ok?
    ensures var (stores', r) := Settle(stores, i, m, f);
            && |stores'| == |stores| && r == Ok(stores'[i].id) && Matches(stores'[i].models, m)
            && stores'[i].name == stores[i].name && stores'[i].deleted == stores[i].deleted
            && forall k | 0 <= k < i :: stores'[k] == stores[k]
  {
  }

  lemma {:induction false} FirstLiveIs(stores: seq<Store>, name: string, i: nat)
    requires i < |stores| && Live(stores[i], name) && forall k | 0 <= k < i :: !Live(stores[k], name)
    ensures FirstLive(stores, name) == i
  {
  }

  /** A call without faults succeeds, and returns the id of the one live store. */
  lemma {:induction false} FaultFreeSucceeds(calls: seq<Call>, name: string, base: seq<Store>)
    requires calls != [] && |base| <= 1 && IsRun(calls, name, base) && FaultFree(calls[|calls| - 1].faults)
    ensures var c := calls[|calls| - 1];
            && |Final(calls, name, base)| == 1
            && Step(c.before, name, Wanted(c), c.faults, c.freshId).1 == Ok(Final(calls, name, base)[0].id)
  {
    var c := calls[|calls| - 1];
    ResultExact(c.before, name, Wanted(c), c.faults, c.freshId);
    RunExact(calls, name, base);
    SuccessMeansCurrent(c, name);
    var latest := LatestAfter(After(c, name), name, Wanted(c));
    var stores := After(c, name);
    var i := FirstLive(stores, name);
    ReplaceLive(stores, name, i, stores[i]);
  }

  // --- What the latest model allows ---

  /** From no store, every model of the live store was wanted by some call of the run. */
  ghost predicate WantedBySome(calls: seq<Call>, m: Model) {
    exists k :: 0 <= k < |calls| && m == Wanted(calls[k])
  }

  lemma {:induction false} ModelsWanted(calls: seq<Call>, name: string)
    requires IsRun(calls, name, [])
    ensures forall m | m in ModelsOf(Final(calls, name, [])) :: WantedBySome(calls, m)
  {
    if calls != [] {
      var n := |calls| - 1;
      var before := Final(calls[..n], name, []);
      ModelsWanted(calls[..n], name);
      RunExact(calls[..n], name, []);
      CallAdds(calls[n], name);
      forall m | m in ModelsOf(Final(calls, name, []))
        ensures WantedBySome(calls, m)
      {
        if m in ModelsOf(before) {
          var k :| 0 <= k < n && m == Wanted(calls[..n][k]);
          assert m == Wanted(calls[k]);
        } else {
          assert m == Wanted(calls[n]);
        }
      }
    }
  }

  /** A call leaves at most the models that were there and the one it wants. */
  lemma {:induction false} CallAdds(c: Call, name: string)
    requires |LiveStores(c.before, name)| <= 1
    ensures forall m | m in ModelsOf(LiveStores(After(c, name), name)) ::
              m in ModelsOf(LiveStores(c.before, name)) || m == Wanted(c)
  {
    var stores, i := c.before, FirstLive(c.before, name);
    if i < |stores| {
      SettleAdds(stores, i, name, c);
    } else {
      NewAdds(c, name);
    }
  }

  lemma {:induction false} NewAdds(c: Call, name: string)
    requires FirstLive(c.before, name) == |c.before|
    ensures forall m | m in ModelsOf(LiveStores(After(c, name), name)) :: m == Wanted(c)
  {
    var stores := c.before;
    var added := Store(c.freshId, name, false, []);
    LiveStoresExact(stores, name);
    LiveAppend(stores, added, name);
    assert LiveStores(stores + [added], name) == [added];
    SettleAdds(stores + [added], |stores|, name, c);
  }

  lemma {:induction false} SettleAdds(stores: seq<Store>, i: nat, name: string, c: Call)
    requires i < |stores| && Live(stores[i], name) && |LiveStores(stores, name)| <= 1
    ensures LiveStores(stores, name) == [stores[i]]
    ensures forall m | m in ModelsOf(LiveStores(Settle(stores, i, Wanted(c), c.faults).0, name)) ::
              m in stores[i].models || m == Wanted(c)
  {
    ReplaceLive(stores, name, i, stores[i]);
    ReplaceLive(stores, name, i, WithModel(stores[i], Wanted(c)));
  }

  ghost predicate Succeeds(c: Call, name: string) {
    Step(c.before, name, Wanted(c), c.faults, c.freshId).1.Ok?
  }

  /** The latest model of the live store after a run whose last call succeeded. */
  lemma {:induction false} LatestIs(calls: seq<Call>, name: string) returns (latest: Model)
    requires calls != [] && IsRun(calls, name, []) && Succeeds(calls[|calls| - 1], name)
    ensures |Final(calls, name, [])| == 1
    ensures var models := Final(calls, name, [])[0].models; models != [] && models[|models| - 1] == latest
    ensures ShapeOfModel(latest) == ShapeOfModel(Wanted(calls[|calls| - 1]))
  {
    var c := calls[|calls| - 1];
    RunExact(calls, name, []);
    SuccessMeansCurrent(c, name);
    latest := LatestAfter(After(c, name), name, Wanted(c));
  }

  lemma {:induction false} LatestAfter(stores: seq<Store>, name: string, m: Model) returns (latest: Model)
    requires FirstLive(stores, name) < |stores| && |LiveStores(stores, name)| <= 1
    requires Matches(stores[FirstLive(stores, name)].models, m)
    ensures |LiveStores(stores, name)| == 1
    ensures var models := LiveStores(stores, name)[0].models; models != [] && models[|models| - 1] == latest
    ensures ShapeOfModel(latest) == ShapeOfModel(m)
  {
    var i := FirstLive(stores, name);
    ReplaceLive(stores, name, i, stores[i]);
    latest := stores[i].models[|stores[i].models| - 1];
  }

  /** After a run from no store whose last call succeeded, the latest model was wanted by some
      call k. Under it, every pair the last spec's policies query can be given to users and
      group members if and only if a configured "group"/"member" was configured for k too. */
  lemma {:induction false} LatestAssignable(calls: seq<Call>, name: string) returns (latest: Model, k: nat)
    requires calls != [] && IsRun(calls, name, []) && Succeeds(calls[|calls| - 1], name)
    ensures k < |calls| && latest == Wanted(calls[k]) && |Final(calls, name, [])| == 1
    ensures var models := Final(calls, name, [])[0].models; models != [] && models[|models| - 1] == latest
    ensures var pairs := Pairs(calls[|calls| - 1].spec);
            (forall pair | pair in pairs :: AssignableIn(latest, pair))
            <==> ((GROUP_TYPE, GROUP_RELATION) in pairs ==> (GROUP_TYPE, GROUP_RELATION) in Pairs(calls[k].spec))
  {
    latest := LatestIs(calls, name);
    ModelsWanted(calls, name);
    assert latest in ModelsOf(Final(calls, name, []));
    k :| k < |calls| && latest == Wanted(calls[k]);
    SameShapeAssignable(calls[|calls| - 1], calls[k]);
  }

  lemma SameShapeAssignable(c: Call, d: Call)
    requires ShapeOfModel(Wanted(c)) == ShapeOfModel(Wanted(d))
    ensures var pairs := Pairs(c.spec);
            (forall pair | pair in pairs :: AssignableIn(Wanted(d), pair))
            <==> ((GROUP_TYPE, GROUP_RELATION) in pairs ==> (GROUP_TYPE, GROUP_RELATION) in Pairs(d.spec))
  {
    LastShapes(c, d);
    AssignableExact(Pairs(c.spec), Pairs(d.spec));
  }
}

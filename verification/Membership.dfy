/** Group membership: from Keycloak's groups to LakeKeeper role assignments and OpenFGA
    membership tuples, which the two policy engines then have to agree on. */
module Membership {
  import opened Wrappers
  import opened TrinoPolicy
  import opened AuthzModel

  const SUBJECT_PREFIX := "oidc~"
  const SERVICE_ACCOUNT := "service-account-"
  const GROUPS: seq<string> := ["platform-admins", "data-engineers", "analysts"]

  datatype Member = Member(id: string, username: string, serviceClient: string)

  datatype Group = Group(id: string, name: string)

  /** What Keycloak's admin API answers during one sync. */
  datatype Keycloak = Keycloak(groups: seq<Group>, members: string -> seq<Member>)

  datatype Tuple = Tuple(user: string, relation: string, object_: string)

  // --- Reply classification ---

  predicate IsSuccess(code: int) {
    200 <= code < 300
  }

  function Lower(s: string): (r: string)
    ensures |r| == |s|
  {
    seq(|s|, i requires 0 <= i < |s| =>
      if 'A' <= s[i] <= 'Z' then (s[i] as int - 'A' as int + 'a' as int) as char else s[i])
  }

  predicate Contains(s: string, part: string) {
    exists i :: 0 <= i <= |s| && part <= s[i..]
  }

  predicate IsAlreadyDone(code: int, body: string) {
    code == 409 || (Contains(Lower(body), "already") && (code == 400 || code == 422))
  }

  /** The body has the word in small or capital letters. */
  predicate MentionsAlready(body: string) {
    exists i :: 0 <= i < |body| && AlreadyAt(body, i)
  }

  predicate AlreadyAt(body: string, i: nat) {
    i + 7 <= |body| && Already(body[i..i + 7])
  }

  predicate Already(word: string)
    requires |word| == 7
  {
    forall j | 0 <= j < 7 :: word[j] == "already"[j] || word[j] == "ALREADY"[j]
  }

  /** How OpenFGA says that a tuple is there: a conflict, or a refusal that mentions it. */
  predicate SaysExists(code: int, body: string) {
    code == 409 || ((code == 400 || code == 422) && MentionsAlready(body))
  }

  lemma AlreadyDoneExact(code: int, body: string)
    ensures IsAlreadyDone(code, body) <==> SaysExists(code, body)
  {
    var lower := Lower(body);
    if i :| 0 <= i <= |lower| && "already" <= lower[i..] {
      assert lower[i..][..7] == "already";
      AlreadyWord(body[i..i + 7], lower[i..i + 7]);
      assert AlreadyAt(body, i);
    }
    if i :| 0 <= i < |body| && AlreadyAt(body, i) {
      AlreadyWord(body[i..i + 7], lower[i..i + 7]);
      assert "already" <= lower[i..];
    }
  }

  lemma AlreadyWord(word: string, lower: string)
    requires |word| == 7 && lower == Lower(word)
    ensures Already(word) <==> lower == "already"
  {
    forall j | 0 <= j < 7
      ensures (word[j] == "already"[j] || word[j] == "ALREADY"[j]) <==> lower[j] == "already"[j]
    {
    }
  }

  // --- Human members ---

  predicate Human(m: Member) {
    m.id != "" && m.serviceClient == "" && !(SERVICE_ACCOUNT <= m.username)
  }

  /** Subjects of the human members, in order. */
  function Subjects(members: seq<Member>): seq<string> {
    if members == [] then []
    else
      var last := members[|members| - 1];
      Subjects(members[..|members| - 1]) + (if Human(last) then [SUBJECT_PREFIX + last.id] else [])
  }

  method KeycloakGroupMembers(members: seq<Member>) returns (subjects: seq<string>)
    ensures subjects == Subjects(members)
  {
    subjects := [];
    for i := 0 to |members|
      invariant subjects == Subjects(members[..i])
    {
      assert members[..i + 1][..i] == members[..i];
      if Human(members[i]) {
        subjects := subjects + [SUBJECT_PREFIX + members[i].id];
      }
    }
    assert members[..|members|] == members;
  }

  /** Someone with this id is listed, who is no service account, neither by its client nor by
      its name. */
  ghost predicate HumanMember(members: seq<Member>, u: string) {
    exists i ::
      && 0 <= i < |members| && members[i].id == u && u != "" && members[i].serviceClient == ""
      && !("service-account-" <= members[i].username)
  }

  lemma {:induction false} SubjectsExact(members: seq<Member>, s: string)
    ensures s in Subjects(members) <==> SUBJECT_PREFIX <= s && HumanMember(members, s[|SUBJECT_PREFIX|..])
  {
    if members != [] {
      var n := |members| - 1;
      var last := members[n];
      SubjectsExact(members[..n], s);
      HumanStep(members, s[if SUBJECT_PREFIX <= s then |SUBJECT_PREFIX| else 0..]);
      PrefixedId(s, last.id);
    }
  }

  lemma {:induction false} HumanStep(members: seq<Member>, u: string)
    requires members != []
    ensures var n := |members| - 1;
            HumanMember(members, u) <==> HumanMember(members[..n], u) || (Human(members[n]) && members[n].id == u)
  {
    var n := |members| - 1;
    if i :| 0 <= i < |members| && Human(members[i]) && members[i].id == u {
      assert i < n ==> members[..n][i] == members[i];
    }
    if i :| 0 <= i < n && Human(members[..n][i]) && members[..n][i].id == u {
      assert members[i] == members[..n][i];
    }
  }

  lemma PrefixedId(s: string, id: string)
    ensures s == SUBJECT_PREFIX + id <==> SUBJECT_PREFIX <= s && s[|SUBJECT_PREFIX|..] == id
  {
    if SUBJECT_PREFIX <= s {
      assert s == SUBJECT_PREFIX + s[|SUBJECT_PREFIX|..];
    }
  }

  /** `out`: members by wanted group name; of groups with one name the last listed counts. */
  ghost function ByGroup(kc: Keycloak, n: nat): map<string, seq<string>>
    requires n <= |kc.groups|
  {
    if n == 0 then map[]
    else
      var g := kc.groups[n - 1];
      if g.name in GROUPS then ByGroup(kc, n - 1)[g.name := Subjects(kc.members(g.id))] else ByGroup(kc, n - 1)
  }

  method AccessGroupMembers(kc: Keycloak) returns (out: map<string, seq<string>>)
    ensures out == ByGroup(kc, |kc.groups|)
  {
    out := map[];
    for i := 0 to |kc.groups|
      invariant out == ByGroup(kc, i)
    {
      var g := kc.groups[i];
      if g.name in GROUPS {
        var subjects := KeycloakGroupMembers(kc.members(g.id));
        out := out[g.name := subjects];
      }
    }
  }

  /** User u is a human member of the group that counts for the name. */
  ghost predicate Belongs(kc: Keycloak, name: string, u: string) {
    name in {"platform-admins", "data-engineers", "analysts"} &&
    exists k ::
      && 0 <= k < |kc.groups| && kc.groups[k].name == name
      && (forall j | k < j < |kc.groups| :: kc.groups[j].name != name)
      && HumanMember(kc.members(kc.groups[k].id), u)
  }

  ghost predicate LastNamed(kc: Keycloak, n: nat, name: string, k: nat) {
    k < n <= |kc.groups| && kc.groups[k].name == name && forall j | k < j < n :: kc.groups[j].name != name
  }

  lemma {:induction false} ByGroupExact(kc: Keycloak, n: nat, name: string)
    requires n <= |kc.groups| && name in GROUPS
    ensures name in ByGroup(kc, n) <==> exists k: nat :: LastNamed(kc, n, name, k)
    ensures forall k: nat | LastNamed(kc, n, name, k) ::
              name in ByGroup(kc, n) && ByGroup(kc, n)[name] == Subjects(kc.members(kc.groups[k].id))
  {
    if n > 0 {
      ByGroupExact(kc, n - 1, name);
      if kc.groups[n - 1].name == name {
        assert LastNamed(kc, n, name, n - 1);
      } else {
        forall k: nat
          ensures LastNamed(kc, n, name, k) <==> LastNamed(kc, n - 1, name, k)
        {
        }
        var m := n - 1;
        if k: nat :| LastNamed(kc, m, name, k) {
          assert LastNamed(kc, n, name, k);
        }
        if k: nat :| LastNamed(kc, n, name, k) {
          assert LastNamed(kc, n - 1, name, k);
        }
      }
    }
  }

  ghost function MembersOf(out: map<string, seq<string>>, name: string): seq<string> {
    if name in out then out[name] else []
  }

  lemma MembersExact(kc: Keycloak, name: string, u: string)
    requires name in GROUPS
    ensures SUBJECT_PREFIX + u in MembersOf(ByGroup(kc, |kc.groups|), name) <==> Belongs(kc, name, u)
  {
    var n := |kc.groups|;
    ByGroupExact(kc, n, name);
    var s := SUBJECT_PREFIX + u;
    assert s[|SUBJECT_PREFIX|..] == u;
    forall k: nat | LastNamed(kc, n, name, k)
      ensures s in Subjects(kc.members(kc.groups[k].id)) <==> HumanMember(kc.members(kc.groups[k].id), u)
    {
      SubjectsExact(kc.members(kc.groups[k].id), s);
    }
    if Belongs(kc, name, u) {
      var k :| 0 <= k < n && kc.groups[k].name == name
               && (forall j | k < j < n :: kc.groups[j].name != name)
               && HumanMember(kc.members(kc.groups[k].id), u);
      assert LastNamed(kc, n, name, k);
    }
  }

  // --- One sync ---

  function TupleFor(group: string, subject: string): Tuple {
    var user := if SUBJECT_PREFIX <= subject then subject[|SUBJECT_PREFIX|..] else subject;
    Tuple("user:" + user, GROUP_RELATION, GROUP_TYPE + ":" + group)
  }

  /** Role assignments and tuples one sync aims at, for the first n default groups. */
  ghost function Assignments(out: map<string, seq<string>>, n: nat): set<(string, string)>
    requires n <= |GROUPS|
  {
    set i, k | 0 <= i < n && 0 <= k < |MembersOf(out, GROUPS[i])| :: (GROUPS[i], MembersOf(out, GROUPS[i])[k])
  }

  /** What one sync wants. */
  ghost function Wanted(kc: Keycloak): set<(string, string)> {
    Assignments(ByGroup(kc, |kc.groups|), |GROUPS|)
  }

  ghost function TuplesFor(assignments: set<(string, string)>): set<Tuple> {
    set a | a in assignments :: TupleFor(a.0, a.1)
  }

  /** The tuples of the first n subjects of a group. */
  ghost function TupleSet(group: string, subjects: seq<string>, n: nat): set<Tuple>
    requires n <= |subjects|
  {
    set j | 0 <= j < n :: TupleFor(group, subjects[j])
  }

  method MembershipTuples(out: map<string, seq<string>>) returns (ts: seq<Tuple>)
    ensures (set t | t in ts) == TuplesFor(Assignments(out, |GROUPS|))
  {
    ts := [];
    for i := 0 to |GROUPS|
      invariant (set t | t in ts) == TuplesFor(Assignments(out, i))
    {
      var subjects := if GROUPS[i] in out then out[GROUPS[i]] else [];
      ghost var before := ts;
      for k := 0 to |subjects|
        invariant (set t | t in ts) == (set t | t in before) + TupleSet(GROUPS[i], subjects, k)
      {
        ghost var earlier := ts;
        var tuple := TupleFor(GROUPS[i], subjects[k]);
        ts := ts + [tuple];
        assert (set t | t in ts) == (set t | t in earlier) + {tuple};
        assert TupleSet(GROUPS[i], subjects, k + 1) == TupleSet(GROUPS[i], subjects, k) + {tuple};
      }
      AssignmentsGrow(out, i);
      TuplesGrow(out, i);
    }
  }

  /** The two remote services, which answer as many calls as the budget says, or all of them. */
  class Backends {
    var assignees: set<(string, string)>
    var tuples: set<Tuple>
    var budget: Option<nat>

    method Answers() returns (ok: bool)
      modifies this`budget
      ensures old(budget).None? ==> ok && budget.None?
    {
      ok := budget.None? || budget.value > 0;
      if budget.Some? && ok {
        budget := Some(budget.value - 1);
      }
    }

    method AssignRole(role: string, subject: string) returns (ok: bool)
      modifies this
      ensures tuples == old(tuples)
      ensures assignees == if ok then old(assignees) + {(role, subject)} else old(assignees)
      ensures old(budget).None? ==> ok && budget.None?
    {
      ok := Answers();
      if ok {
        assignees := assignees + {(role, subject)};
      }
    }

    /** OpenFGA refuses to write a tuple it already holds, and says so only then. */
    method WriteTuple(t: Tuple) returns (code: int, body: string)
      modifies this
      ensures assignees == old(assignees)
      ensures tuples == if 200 <= code < 300 then old(tuples) + {t} else old(tuples)
      ensures SaysExists(code, body) ==> t in old(tuples)
      ensures old(budget).None? ==> (200 <= code < 300 || SaysExists(code, body)) && budget.None?
    {
      var ok := Answers();
      code, body := *, *;
      if !ok {
        code := if 200 <= code < 300 || SaysExists(code, body) then 503 else code;
      } else if t in tuples {
        code := if SaysExists(code, body) then code else 409;
      } else {
        tuples := tuples + {t};
        code := if 200 <= code < 300 then code else 200;
      }
    }

    /** `EnsureAuthzTuples`. */
    method EnsureAuthzTuples(storeId: string, ts: seq<Tuple>) returns (ok: bool)
      modifies this
      ensures assignees == old(assignees)
      ensures ok ==> tuples == if storeId == "" then old(tuples) else old(tuples) + set t | t in ts
      ensures old(tuples) <= tuples <= old(tuples) + set t | t in ts
      ensures old(budget).None? ==> ok && budget.None?
    {
      if storeId == "" || ts == [] {
        return true;
      }
      for i := 0 to |ts|
        invariant assignees == old(assignees) && (old(budget).None? ==> budget.None?)
        invariant tuples == old(tuples) + set t | t in ts[..i]
      {
        var code, body := WriteTuple(ts[i]);
        assert ts[..i + 1] == ts[..i] + [ts[i]];
        AlreadyDoneExact(code, body);
        if !IsSuccess(code) && !IsAlreadyDone(code, body) {
          return false;
        }
      }
      assert ts[..|ts|] == ts;
      ok := true;
    }

    /** `EnsureAccessRoles`, reduced to the assignees of each role. */
    method EnsureAccessRoles(out: map<string, seq<string>>) returns (ok: bool)
      modifies this
      ensures tuples == old(tuples)
      ensures ok ==> assignees == old(assignees) + Assignments(out, |GROUPS|)
      ensures old(assignees) <= assignees <= old(assignees) + Assignments(out, |GROUPS|)
      ensures old(budget).None? ==> ok && budget.None?
    {
      for i := 0 to |GROUPS|
        invariant tuples == old(tuples) && (old(budget).None? ==> budget.None?)
        invariant assignees == old(assignees) + Assignments(out, i)
      {
        var subjects := if GROUPS[i] in out then out[GROUPS[i]] else [];
        for k := 0 to |subjects|
          invariant tuples == old(tuples) && (old(budget).None? ==> budget.None?)
          invariant assignees == old(assignees) + Assignments(out, i) + set j | 0 <= j < k :: (GROUPS[i], subjects[j])
        {
          ok := AssignRole(GROUPS[i], subjects[k]);
          if !ok {
            AssignmentsGrow(out, i);
            return;
          }
        }
        AssignmentsGrow(out, i);
      }
      ok := true;
    }

    /** `reconcileAccessGroups` after the members have been read. A successful sync adds
        exactly the wanted assignments and, with a store, exactly their tuples; a failed
        one adds nothing else. */
    method SyncAccess(kc: Keycloak, storeId: string) returns (ok: bool)
      modifies this
      ensures var wanted := Wanted(kc);
              && old(assignees) <= assignees <= old(assignees) + wanted
              && old(tuples) <= tuples <= old(tuples) + TuplesFor(wanted)
              && (ok ==> assignees == old(assignees) + wanted)
              && (ok && storeId != "" ==> tuples == old(tuples) + TuplesFor(wanted))
      ensures old(budget).None? ==> ok && budget.None?
    {
      var out := AccessGroupMembers(kc);
      var ts := MembershipTuples(out);
      ok := EnsureAccessRoles(out);
      if ok {
        ok := EnsureAuthzTuples(storeId, ts);
      }
    }
  }

  lemma AssignmentsGrow(out: map<string, seq<string>>, i: nat)
    requires i < |GROUPS|
    ensures var subjects := MembersOf(out, GROUPS[i]);
            Assignments(out, i + 1) == Assignments(out, i) + set j | 0 <= j < |subjects| :: (GROUPS[i], subjects[j])
    ensures Assignments(out, i + 1) <= Assignments(out, |GROUPS|)
  {
  }

  lemma TuplesGrow(out: map<string, seq<string>>, i: nat)
    requires i < |GROUPS|
    ensures var subjects := MembersOf(out, GROUPS[i]);
            TuplesFor(Assignments(out, i + 1))
            == TuplesFor(Assignments(out, i)) + TupleSet(GROUPS[i], subjects, |subjects|)
  {
    AssignmentsGrow(out, i);
  }

  /** What a sync wants for a user of a default group, seen from both engines: the role
      assignment under the identity the LakeKeeper policies compute from the session user,
      the tuple under the identity the row-filter policies send, and both exactly for the
      human members in Keycloak. */
  lemma MembershipAgrees(kc: Keycloak, q: Query, group: string)
    requires group in GROUPS
    ensures var wanted := Wanted(kc);
            && ((group, LakekeeperUser(q)) in wanted <==> Belongs(kc, group, q.trinoUser))
            && (Tuple("user:" + q.trinoUser, GROUP_RELATION, GROUP_TYPE + ":" + group) in TuplesFor(wanted)
                <==> Belongs(kc, group, q.trinoUser))
  {
    var out := ByGroup(kc, |kc.groups|);
    var wanted := Wanted(kc);
    var u := q.trinoUser;
    MembersExact(kc, group, u);
    AssignedExact(out, group, SUBJECT_PREFIX + u);
    var t := Tuple("user:" + u, GROUP_RELATION, GROUP_TYPE + ":" + group);
    if Belongs(kc, group, u) {
      assert TupleFor(group, SUBJECT_PREFIX + u) == t;
    }
    if t in TuplesFor(wanted) {
      var a :| a in wanted && TupleFor(a.0, a.1) == t;
      TupleDetermines(a.0, a.1, group, u, kc);
    }
  }

  lemma AssignedExact(out: map<string, seq<string>>, group: string, subject: string)
    ensures (group, subject) in Assignments(out, |GROUPS|) <==> group in GROUPS && subject in MembersOf(out, group)
  {
    if group in GROUPS && subject in MembersOf(out, group) {
      var i :| 0 <= i < |GROUPS| && GROUPS[i] == group;
      var k :| 0 <= k < |MembersOf(out, group)| && MembersOf(out, group)[k] == subject;
      assert (GROUPS[i], MembersOf(out, GROUPS[i])[k]) in Assignments(out, |GROUPS|);
    }
  }

  lemma TupleDetermines(group: string, subject: string, group': string, u: string, kc: Keycloak)
    requires (group, subject) in Assignments(ByGroup(kc, |kc.groups|), |GROUPS|)
    requires TupleFor(group, subject) == Tuple("user:" + u, GROUP_RELATION, GROUP_TYPE + ":" + group')
    ensures group == group' && subject == SUBJECT_PREFIX + u
  {
    var out := ByGroup(kc, |kc.groups|);
    AssignedExact(out, group, subject);
    ByGroupExact(kc, |kc.groups|, group);
    var k: nat :| LastNamed(kc, |kc.groups|, group, k);
    SubjectsExact(kc.members(kc.groups[k].id), subject);
    var t := TupleFor(group, subject);
    assert t.user[|"user:"|..] == subject[|SUBJECT_PREFIX|..] && t.user[|"user:"|..] == u;
    assert t.object_[|GROUP_TYPE + ":"|..] == group && t.object_[|GROUP_TYPE + ":"|..] == group';
  }

  // --- Runs of syncs ---

  /** What both services hold. */
  datatype Held = Held(assignees: set<(string, string)>, tuples: set<Tuple>)

  /** One sync of a run: what Keycloak answered, the store, and the services around it. */
  datatype Sync = Sync(kc: Keycloak, storeId: string, ok: bool, before: Held, after: Held)

  ghost predicate SyncLegal(s: Sync) {
    && s.before.assignees <= s.after.assignees <= s.before.assignees + Wanted(s.kc)
    && s.before.tuples <= s.after.tuples <= s.before.tuples + TuplesFor(Wanted(s.kc))
    && (s.ok ==> s.after.assignees == s.before.assignees + Wanted(s.kc))
    && (s.ok && s.storeId != "" ==> s.after.tuples == s.before.tuples + TuplesFor(Wanted(s.kc)))
  }

  /** Syncs one after the other; nobody else grants or revokes anything in between. */
  ghost predicate IsSyncRun(h: seq<Sync>) {
    && (forall k | 0 <= k < |h| :: SyncLegal(h[k]))
    && (forall k | 0 < k < |h| :: h[k].before == h[k - 1].after)
  }

  lemma {:induction false} LongerRun(h: seq<Sync>, s: Sync)
    requires IsSyncRun(h) && SyncLegal(s) && (h != [] ==> s.before == h[|h| - 1].after)
    ensures IsSyncRun(h + [s])
  {
  }

  method SyncOnce(b: Backends, kc: Keycloak, storeId: string) returns (ghost s: Sync)
    modifies b
    ensures old(b.budget).None? ==> s.ok && b.budget.None?
    ensures SyncLegal(s) && s.kc == kc && s.storeId == storeId
    ensures s.before == old(Held(b.assignees, b.tuples)) && s.after == Held(b.assignees, b.tuples)
  {
    var ok := b.SyncAccess(kc, storeId);
    s := Sync(kc, storeId, ok, old(Held(b.assignees, b.tuples)), Held(b.assignees, b.tuples));
  }

  /** The operator, syncing any number of times with any membership, makes such a run. */
  method SyncRun(b: Backends, steps: seq<(Keycloak, string)>) returns (ghost h: seq<Sync>)
    modifies b
    ensures IsSyncRun(h) && |h| == |steps|
    ensures old(b.budget).None? ==> forall k | 0 <= k < |steps| :: h[k].ok
    ensures forall k | 0 <= k < |steps| :: h[k].kc == steps[k].0 && h[k].storeId == steps[k].1
    ensures steps != [] ==> h[0].before == old(Held(b.assignees, b.tuples))
    ensures steps != [] ==> h[|steps| - 1].after == Held(b.assignees, b.tuples)
  {
    h := [];
    for i := 0 to |steps|
      invariant IsSyncRun(h) && |h| == i
      invariant old(b.budget).None? ==> b.budget.None? && forall k | 0 <= k < i :: h[k].ok
      invariant forall k | 0 <= k < i :: h[k].kc == steps[k].0 && h[k].storeId == steps[k].1
      invariant (if i > 0 then h[0].before else Held(b.assignees, b.tuples)) == old(Held(b.assignees, b.tuples))
      invariant i > 0 ==> h[i - 1].after == Held(b.assignees, b.tuples)
    {
      ghost var s := SyncOnce(b, steps[i].0, steps[i].1);
      LongerRun(h, s);
      h := h + [s];
    }
  }

  /** Nothing is ever taken away, and nothing is added that no sync wanted. */
  lemma {:induction false} HeldGrows(h: seq<Sync>, i: nat, j: nat)
    requires IsSyncRun(h) && i <= j < |h|
    ensures h[i].after.assignees <= h[j].after.assignees && h[i].after.tuples <= h[j].after.tuples
    decreases j - i
  {
    if i < j {
      HeldGrows(h, i, j - 1);
    }
  }

  lemma {:induction false} AssigneeWanted(h: seq<Sync>, j: nat, a: (string, string)) returns (k: nat)
    requires IsSyncRun(h) && j < |h| && a in h[j].after.assignees && a !in h[0].before.assignees
    ensures k <= j && a in Wanted(h[k].kc)
  {
    k := j;
    if a !in Wanted(h[j].kc) {
      k := AssigneeWanted(h, j - 1, a);
    }
  }

  lemma {:induction false} TupleWanted(h: seq<Sync>, j: nat, t: Tuple) returns (k: nat)
    requires IsSyncRun(h) && j < |h| && t in h[j].after.tuples && t !in h[0].before.tuples
    ensures k <= j && t in TuplesFor(Wanted(h[k].kc))
  {
    k := j;
    if t !in TuplesFor(Wanted(h[j].kc)) {
      k := TupleWanted(h, j - 1, t);
    }
  }

  /** In this sync the user was a human member of the group. */
  ghost predicate MemberIn(h: seq<Sync>, k: nat, group: string, user: string) {
    k < |h| && Belongs(h[k].kc, group, user)
  }

  ghost function TupleOf(group: string, user: string): Tuple {
    Tuple("user:" + user, GROUP_RELATION, GROUP_TYPE + ":" + group)
  }

  /** Membership over time, exactly: from services that hold nothing, after successful syncs
      with a store, both engines give a user the group's rights if and only if some sync saw
      the user in the group. So the two always agree, and leaving a group takes nothing away. */
  lemma {:induction false} HeldExact(h: seq<Sync>, j: nat, q: Query, group: string)
    requires IsSyncRun(h) && j < |h| && group in GROUPS && h[0].before == Held({}, {})
    requires forall k | 0 <= k <= j :: h[k].ok && h[k].storeId != ""
    ensures (group, LakekeeperUser(q)) in h[j].after.assignees
            <==> exists k :: 0 <= k <= j && MemberIn(h, k, group, q.trinoUser)
    ensures TupleOf(group, q.trinoUser) in h[j].after.tuples
            <==> exists k :: 0 <= k <= j && MemberIn(h, k, group, q.trinoUser)
  {
    var a, t := (group, LakekeeperUser(q)), TupleOf(group, q.trinoUser);
    forall k | 0 <= k <= j
      ensures MemberIn(h, k, group, q.trinoUser) <==> a in Wanted(h[k].kc)
      ensures MemberIn(h, k, group, q.trinoUser) <==> t in TuplesFor(Wanted(h[k].kc))
      ensures MemberIn(h, k, group, q.trinoUser) ==> a in h[j].after.assignees && t in h[j].after.tuples
    {
      MembershipAgrees(h[k].kc, q, group);
      HeldGrows(h, k, j);
    }
    if a in h[j].after.assignees {
      var k := AssigneeWanted(h, j, a);
      assert MemberIn(h, k, group, q.trinoUser);
    }
    if t in h[j].after.tuples {
      var k := TupleWanted(h, j, t);
      assert MemberIn(h, k, group, q.trinoUser);
    }
  }

  /** A user who has left the group keeps both grants, whatever later syncs do or fail to do. */
  lemma {:induction false} LeavingKeepsBoth(h: seq<Sync>, i: nat, j: nat, q: Query, group: string)
    requires IsSyncRun(h) && i <= j < |h| && group in GROUPS && h[i].ok && h[i].storeId != ""
    requires MemberIn(h, i, group, q.trinoUser) && !MemberIn(h, j, group, q.trinoUser)
    ensures (group, LakekeeperUser(q)) in h[j].after.assignees
    ensures TupleOf(group, q.trinoUser) in h[j].after.tuples
    ensures (group, LakekeeperUser(q)) !in Wanted(h[j].kc)
  {
    MembershipAgrees(h[i].kc, q, group);
    MembershipAgrees(h[j].kc, q, group);
    HeldGrows(h, i, j);
  }
}

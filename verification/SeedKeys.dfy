/** Reconciling the gateway keys declared in the configuration with the stored key rows. */
module SeedKeys {
  import opened Common

  const ORIGIN_CONFIG := "config"
  const PREFIX_LIVE := "sk-gw-live-"
  const PREFIX_TEST := "sk-gw-test-"
  const ENV_SCHEME := "env://"

  datatype KeyRow = KeyRow(
    id: string, projectId: string, name: string, prefix: string, hash: string, last4: string, scopes: seq<string>,
    status: string, expiresAt: Option<int>, lastUsedAt: Option<int>, createdAt: int, revokedAt: Option<int>,
        origin: string)

  type Rows = map<string, KeyRow>

  datatype NewKey = NewKey(
    id: string, projectId: string, name: string, prefix: string, hash: string, last4: string, scopes: seq<string>,
    expiresAt: Option<int>)

  datatype KeyConfig = KeyConfig(id: string, name: string, projectId: Option<string>, secret: string,
        scopes: seq<string>)

  /** The process environment, the keyed hash of a secret, and the default project. */
  datatype Setting = Setting(vars: map<string, string>, hash: string -> string, defaultProject: string)

  datatype ApplyError = Unresolved(id: string) | BadPrefix(id: string) | Conflict(id: string)

  // ---- Declared keys ----

  /** `env://VAR` names an environment variable; anything else but the empty text is the secret itself. */
  function ResolveSecret(s: Setting, secret: string): Option<string> {
    if ENV_SCHEME <= secret then
      var name := secret[|ENV_SCHEME|..];
      if name == [] then None else Get(s.vars, name)
    else if secret == [] then None else Some(secret)
  }

  function PrefixOf(plaintext: string): Option<string> {
    if PREFIX_LIVE <= plaintext then Some(PREFIX_LIVE) else if PREFIX_TEST <= plaintext then Some(PREFIX_TEST) else None
  }

  predicate Usable(s: Setting, k: KeyConfig) {
    ResolveSecret(s, k.secret).Some? && PrefixOf(ResolveSecret(s, k.secret).value).Some?
  }

  function ProjectOf(s: Setting, k: KeyConfig): string {
    k.projectId.UnwrapOr(s.defaultProject)
  }

  function NewKeyOf(s: Setting, k: KeyConfig): NewKey
    requires Usable(s, k)
  {
    var plaintext := ResolveSecret(s, k.secret).value;
    NewKey(k.id, ProjectOf(s, k), k.name, PrefixOf(plaintext).value, s.hash(plaintext),
           plaintext[Max(0, |plaintext| - 4)..], k.scopes, None)
  }

  function RowOf(k: NewKey, createdAt: int, lastUsedAt: Option<int>): KeyRow {
    KeyRow(k.id, k.projectId, k.name, k.prefix, k.hash, k.last4, k.scopes, "active", k.expiresAt, lastUsedAt,
        createdAt, None, ORIGIN_CONFIG)
  }

  /** The declaration of `id` that counts is the last one; `FirstAt` is where it first appears. */
  function Declared(ks: seq<KeyConfig>, id: string): (r: Option<KeyConfig>)
    ensures r.Some? ==> r.value.id == id && r.value in ks
    ensures r.None? ==> forall k :: k in ks ==> k.id != id
  {
    if ks == [] then None
    else if ks[|ks| - 1].id == id then Some(ks[|ks| - 1])
    else
      assert forall k :: k in ks ==> k in ks[..|ks| - 1] || k == ks[|ks| - 1];
      Declared(ks[..|ks| - 1], id)
  }

  function FirstAt(ks: seq<KeyConfig>, id: string): nat {
    if ks == [] then 0
    else if Declared(ks[..|ks| - 1], id).Some? then FirstAt(ks[..|ks| - 1], id)
    else |ks| - 1
  }

  ghost predicate Mentions(s: Setting, ks: seq<KeyConfig>, project: string) {
    exists k :: k in ks && ProjectOf(s, k) == project
  }

  ghost predicate DeclaredIn(s: Setting, ks: seq<KeyConfig>, project: string, id: string) {
    exists k :: k in ks && ProjectOf(s, k) == project && k.id == id
  }

  // ---- What the rows become ----

  predicate AdminOwned(rows: Rows, id: string) {
    id in rows && rows[id].origin != ORIGIN_CONFIG
  }

  ghost predicate AllUsable(s: Setting, ks: seq<KeyConfig>) {
    forall k :: k in ks ==> Usable(s, k)
  }

  /** A row once the declared keys `ks` have been upserted: birth and last use survive, all else is as declared. */
  function RowAfter(s: Setting, rows: Rows, ks: seq<KeyConfig>, clock: nat -> int, id: string): Option<KeyRow>
    requires AllUsable(s, ks)
  {
    match Declared(ks, id)
    case None => Get(rows, id)
    case Some(k) =>
      if id in rows then Some(RowOf(NewKeyOf(s, k), rows[id].createdAt, rows[id].lastUsedAt))
      else Some(RowOf(NewKeyOf(s, k), clock(FirstAt(ks, id)), None))
  }

  /** A stored config key of the project that is not to be kept. */
  predicate Stale(row: KeyRow, project: string, keep: seq<string>) {
    row.projectId == project && row.origin == ORIGIN_CONFIG && row.id !in keep
  }

  function Prune(rows: Rows, project: string, keep: seq<string>): Rows {
    map id | id in rows && !Stale(rows[id], project, keep) :: rows[id]
  }

  /** A row once everything has been applied. */
  ghost function Target(s: Setting, rows: Rows, ks: seq<KeyConfig>, clock: nat -> int, id: string): Option<KeyRow>
    requires AllUsable(s, ks)
  {
    if Declared(ks, id).None? && id in rows && rows[id].origin == ORIGIN_CONFIG
       && (Mentions(s, ks, rows[id].projectId) || rows[id].projectId == s.defaultProject)
    then None else RowAfter(s, rows, ks, clock, id)
  }

  ghost predicate IsApplied(s: Setting, rows: Rows, ks: seq<KeyConfig>, clock: nat -> int, rows': Rows) {
    AllUsable(s, ks) && forall id :: Get(rows', id) == Target(s, rows, ks, clock, id)
  }

  ghost predicate Keyed(rows: Rows) {
    forall id :: id in rows ==> rows[id].id == id
  }

  // ---- The store ----

  class MemoryMetadataStore {
    var keys: Rows

    ghost predicate Valid()
      reads this
    {
      Keyed(keys)
    }

    constructor ()
      ensures Valid() && keys == map[]
    {
      keys := map[];
    }

    /** Refused for an id an administrator owns; otherwise the row is as given, keeping birth and last use. */
    method UpsertSeededKey(k: NewKey, now: int) returns (ok: bool)
      requires Valid()
      modifies this
      ensures Valid()
      ensures ok <==> !AdminOwned(old(keys), k.id)
      ensures !ok ==> keys == old(keys)
      ensures ok ==> keys == old(keys)[k.id :=
                if k.id in old(keys) then RowOf(k, old(keys)[k.id].createdAt, old(keys)[k.id].lastUsedAt)
                      else RowOf(k, now, None)]
    {
      if k.id in keys && keys[k.id].origin != ORIGIN_CONFIG {
        return false;
      }
      var createdAt, lastUsedAt := now, None;
      if k.id in keys {
        createdAt, lastUsedAt := keys[k.id].createdAt, keys[k.id].lastUsedAt;
      }
      keys := keys[k.id := RowOf(k, createdAt, lastUsedAt)];
      ok := true;
    }

    method PruneSeededKeysNotIn(project: string, keep: seq<string>) returns (removed: nat)
      requires Valid()
      modifies this
      ensures Valid() && keys == Prune(old(keys), project, keep)
      ensures removed == |old(keys)| - |keys|
    {
      ghost var before := keys;
      var toRemove := set id | id in keys && Stale(keys[id], project, keep) :: id;
      removed := |toRemove|;
      var todo := toRemove;
      while todo != {}
        invariant todo <= toRemove
        invariant forall id :: Get(keys, id) == if id in toRemove && id !in todo then None else Get(before, id)
        decreases |todo|
      {
        var id :| id in todo;
        keys := keys - {id};
        todo := todo - {id};
      }
      PruneResult(before, keys, toRemove, project, keep);
    }
  }

  lemma SameRows(a: Rows, b: Rows)
    requires forall id :: Get(a, id) == Get(b, id)
    ensures a == b
  {
    forall id ensures (id in a <==> id in b) && (id in a ==> a[id] == b[id]) {
      assert Get(a, id) == Get(b, id);
    }
  }

  lemma PruneResult(rows: Rows, rows': Rows, ids: set<string>, project: string, keep: seq<string>)
    requires forall id :: id in ids <==> id in rows && Stale(rows[id], project, keep)
    requires forall id :: Get(rows', id) == if id in ids then None else Get(rows, id)
    ensures rows' == Prune(rows, project, keep) && |ids| == |rows| - |rows'|
  {
    SameRows(rows', rows - ids);
    SameRows(rows', Prune(rows, project, keep));
    CountRemoved(rows, ids);
  }

  lemma CountRemoved(rows: Rows, ids: set<string>)
    requires ids <= rows.Keys
    ensures |rows - ids| + |ids| == |rows|
  {
    assert (rows - ids).Keys == rows.Keys - ids;
    assert |rows.Keys - ids| + |ids| == |rows.Keys|;
    assert |rows - ids| == |(rows - ids).Keys| && |rows| == |rows.Keys|;
  }

  // ---- Applying the configuration ----

  /** The ids declared in each project, as pruning needs them. */
  ghost predicate Grouped(s: Setting, ks: seq<KeyConfig>, groups: map<string, seq<string>>) {
    && (forall p :: p in groups <==> Mentions(s, ks, p))
    && (forall p, id :: p in groups ==> (id in groups[p] <==> DeclaredIn(s, ks, p, id)))
  }

  lemma GroupStep(s: Setting, ks: seq<KeyConfig>, k: KeyConfig, groups: map<string, seq<string>>)
    requires Grouped(s, ks, groups)
    ensures
      var p := ProjectOf(s, k);
      Grouped(s, ks + [k], groups[p := (if p in groups then groups[p] else []) + [k.id]])
  {
    forall p ensures Mentions(s, ks + [k], p) <==> Mentions(s, ks, p) || p == ProjectOf(s, k) {
      if p == ProjectOf(s, k) {
        assert k in ks + [k];
      } else if Mentions(s, ks, p) {
        var x :| x in ks && ProjectOf(s, x) == p;
        assert x in ks + [k];
      }
    }
    forall p, id ensures DeclaredIn(s, ks + [k], p, id) <==>
          DeclaredIn(s, ks, p, id) || (p == ProjectOf(s, k) && id == k.id) {
      if p == ProjectOf(s, k) && id == k.id {
        assert k in ks + [k];
      } else if DeclaredIn(s, ks, p, id) {
        var x :| x in ks && ProjectOf(s, x) == p && x.id == id;
        assert x in ks + [k];
      }
    }
  }

  /** First pass: every secret resolves and has a known prefix, or nothing is changed at all. */
  method Validate(
      s: Setting, ks: seq<KeyConfig>)
    returns (r: Result<(seq<KeyConfig>, map<string, seq<string>>), ApplyError>)
    ensures r.Ok? <==> AllUsable(s, ks)
    ensures r.Ok? ==> r.value.0 == ks && Grouped(s, ks, r.value.1)
  {
    var groups: map<string, seq<string>> := map[];
    var toUpsert := [];
    for n := 0 to |ks|
      invariant AllUsable(s, ks[..n]) && toUpsert == ks[..n] && Grouped(s, ks[..n], groups)
    {
      var k := ks[n];
      assert k in ks;
      var plaintext := ResolveSecret(s, k.secret);
      if plaintext.None? {
        return Err(Unresolved(k.id));
      }
      if PrefixOf(plaintext.value).None? {
        return Err(BadPrefix(k.id));
      }
      var project := ProjectOf(s, k);
      assert ks[..n + 1] == ks[..n] + [k];
      GroupStep(s, ks[..n], k, groups);
      groups := groups[project := (if project in groups then groups[project] else []) + [k.id]];
      toUpsert := toUpsert + [k];
    }
    assert ks[..|ks|] == ks;
    r := Ok((toUpsert, groups));
  }

  /** The rows once the first `n` declared keys have been upserted. */
  ghost predicate Upserted(s: Setting, rows: Rows, ks: seq<KeyConfig>, n: nat, clock: nat -> int, rows': Rows)
    requires n <= |ks| && AllUsable(s, ks)
  {
    forall id :: Get(rows', id) == RowAfter(s, rows, ks[..n], clock, id)
  }

  lemma UpsertStep(s: Setting, rows: Rows, ks: seq<KeyConfig>, n: nat, clock: nat -> int, mid: Rows, rows': Rows)
    requires n < |ks| && AllUsable(s, ks) && Upserted(s, rows, ks, n, clock, mid)
    requires
      var k := NewKeyOf(s, ks[n]);
      rows' == mid[k.id := if k.id in mid then RowOf(k, mid[k.id].createdAt, mid[k.id].lastUsedAt)
          else RowOf(k, clock(n), None)]
    ensures Upserted(s, rows, ks, n + 1, clock, rows')
  {
    assert ks[..n + 1][..n] == ks[..n] && ks[..n + 1][n] == ks[n];
    forall id ensures Get(rows', id) == RowAfter(s, rows, ks[..n + 1], clock, id) {
      assert Get(mid, id) == RowAfter(s, rows, ks[..n], clock, id);
    }
  }

  lemma UpsertKeepsOwners(s: Setting, rows: Rows, ks: seq<KeyConfig>, n: nat, clock: nat -> int, mid: Rows, id: string)
    requires n <= |ks| && AllUsable(s, ks) && Upserted(s, rows, ks, n, clock, mid)
    requires forall i :: 0 <= i < n ==> !AdminOwned(rows, ks[i].id)
    ensures AdminOwned(mid, id) <==> AdminOwned(rows, id)
    ensures AdminOwned(rows, id) ==> mid[id] == rows[id]
  {
    assert Get(mid, id) == RowAfter(s, rows, ks[..n], clock, id);
    if Declared(ks[..n], id).Some? {
      var i :| 0 <= i < n && ks[i] == Declared(ks[..n], id).value;
    }
  }

  /** Second pass: all keys are upserted in order, up to the first that an administrator owns. */
  method UpsertAll(store: MemoryMetadataStore, s: Setting, ks: seq<KeyConfig>, clock: nat -> int) returns (done: nat)
    requires store.Valid() && AllUsable(s, ks)
    modifies store
    ensures store.Valid() && done <= |ks|
    ensures forall i :: 0 <= i < done ==> !AdminOwned(old(store.keys), ks[i].id)
    ensures done < |ks| ==> AdminOwned(old(store.keys), ks[done].id)
    ensures Upserted(s, old(store.keys), ks, done, clock, store.keys)
  {
    ghost var rows := store.keys;
    done := 0;
    while done < |ks|
      invariant done <= |ks| && store.Valid() && Upserted(s, rows, ks, done, clock, store.keys)
      invariant forall i :: 0 <= i < done ==> !AdminOwned(rows, ks[i].id)
    {
      ghost var mid := store.keys;
      UpsertKeepsOwners(s, rows, ks, done, clock, mid, ks[done].id);
      var ok := store.UpsertSeededKey(NewKeyOf(s, ks[done]), clock(done));
      if !ok {
        return;
      }
      UpsertStep(s, rows, ks, done, clock, mid, store.keys);
      done := done + 1;
    }
  }

  /** A row is gone once its project has been pruned and does not declare it. */
  ghost predicate Gone(s: Setting, ks: seq<KeyConfig>, projects: set<string>, row: KeyRow) {
    row.origin == ORIGIN_CONFIG && row.projectId in projects && !DeclaredIn(s, ks, row.projectId, row.id)
  }

  ghost predicate Pruned(s: Setting, ks: seq<KeyConfig>, projects: set<string>, rows: Rows, rows': Rows) {
    forall id :: Get(rows', id) == if id in rows && Gone(s, ks, projects, rows[id]) then None else Get(rows, id)
  }

  lemma PruneStep(
      s: Setting, ks: seq<KeyConfig>, projects: set<string>, rows: Rows, mid: Rows, project: string,
      keep: seq<string>)
    requires Pruned(s, ks, projects, rows, mid) && forall id :: id in keep <==> DeclaredIn(s, ks, project, id)
    ensures Pruned(s, ks, projects + {project}, rows, Prune(mid, project, keep))
  {
    var rows' := Prune(mid, project, keep);
    forall id ensures Get(rows', id) ==
          if id in rows && Gone(s, ks, projects + {project}, rows[id]) then None else Get(rows, id) {
      assert Get(mid, id) == if id in rows && Gone(s, ks, projects, rows[id]) then None else Get(rows, id);
    }
  }

  /** Third pass: prune every project that declares keys, in any order, and the default project in any case. */
  method PruneAll(store: MemoryMetadataStore, s: Setting, ks: seq<KeyConfig>, groups: map<string, seq<string>>)
    requires store.Valid() && Grouped(s, ks, groups)
    modifies store
    ensures store.Valid()
    ensures Pruned(s, ks, groups.Keys + {s.defaultProject}, old(store.keys), store.keys)
  {
    ghost var rows := store.keys;
    var todo := groups.Keys;
    while todo != {}
      invariant todo <= groups.Keys && store.Valid()
      invariant Pruned(s, ks, groups.Keys - todo, rows, store.keys)
      decreases |todo|
    {
      var project :| project in todo;
      ghost var mid := store.keys;
      var _ := store.PruneSeededKeysNotIn(project, groups[project]);
      PruneStep(s, ks, groups.Keys - todo, rows, mid, project, groups[project]);
      todo := todo - {project};
      assert groups.Keys - (todo + {project}) + {project} == groups.Keys - todo;
    }
    assert groups.Keys - {} == groups.Keys;
    if s.defaultProject !in groups {
      ghost var mid := store.keys;
      var _ := store.PruneSeededKeysNotIn(s.defaultProject, []);
      PruneStep(s, ks, groups.Keys, rows, mid, s.defaultProject, []);
    } else {
      assert groups.Keys + {s.defaultProject} == groups.Keys;
    }
  }

  lemma AllPasses(
      s: Setting, ks: seq<KeyConfig>, clock: nat -> int, rows: Rows, mid: Rows, rows': Rows, projects: set<string>)
    requires Keyed(rows) && AllUsable(s, ks) && Upserted(s, rows, ks, |ks|, clock, mid)
              && Pruned(s, ks, projects, mid, rows')
    requires forall p :: p in projects <==> Mentions(s, ks, p) || p == s.defaultProject
    ensures IsApplied(s, rows, ks, clock, rows')
  {
    assert ks[..|ks|] == ks;
    forall id ensures Get(rows', id) == Target(s, rows, ks, clock, id) {
      assert Get(mid, id) == RowAfter(s, rows, ks, clock, id);
      assert Get(rows', id) == if id in mid && Gone(s, ks, projects, mid[id]) then None else Get(mid, id);
      match Declared(ks, id)
      case Some(k) => assert DeclaredIn(s, ks, ProjectOf(s, k), id);
      case None => assert id in rows ==> !DeclaredIn(s, ks, rows[id].projectId, id);
    }
  }

  ghost predicate NoneOwned(rows: Rows, ks: seq<KeyConfig>) {
    forall k :: k in ks ==> !AdminOwned(rows, k.id)
  }

  ghost predicate AdminRowsKept(rows: Rows, rows': Rows) {
    forall id :: AdminOwned(rows, id) ==> Get(rows', id) == Get(rows, id)
  }

  /** Succeeds exactly when every secret is usable and no declared id belongs to an administrator. An unusable
      secret leaves all rows alone; a conflict leaves the rows of administrators alone. */
  method Apply(
      store: MemoryMetadataStore, s: Setting, ks: seq<KeyConfig>, clock: nat -> int)
    returns (r: Result<(), ApplyError>)
    requires store.Valid()
    modifies store
    ensures store.Valid()
    ensures r.Ok? <==> AllUsable(s, ks) && NoneOwned(old(store.keys), ks)
    ensures r.Ok? ==> IsApplied(s, old(store.keys), ks, clock, store.keys)
    ensures !AllUsable(s, ks) ==> store.keys == old(store.keys)
    ensures AdminRowsKept(old(store.keys), store.keys)
  {
    ghost var rows := store.keys;
    var validated := Validate(s, ks);
    if validated.Err? {
      return Err(validated.error);
    }
    var done := UpsertAll(store, s, ks, clock);
    ghost var mid := store.keys;
    forall id ensures AdminOwned(rows, id) ==> Get(mid, id) == Get(rows, id) {
      UpsertKeepsOwners(s, rows, ks, done, clock, mid, id);
    }
    if done < |ks| {
      assert ks[done] in ks;
      return Err(Conflict(ks[done].id));
    }
    PruneAll(store, s, ks, validated.value.1);
    AllPasses(s, ks, clock, rows, mid, store.keys, validated.value.1.Keys + {s.defaultProject});
    AppliedKeepsAdminRows(s, rows, ks, clock, store.keys);
    r := Ok(());
  }

  // ---- What a successful apply means ----

  /** Administrators' rows are never changed. */
  lemma AppliedKeepsAdminRows(s: Setting, rows: Rows, ks: seq<KeyConfig>, clock: nat -> int, rows': Rows)
    requires IsApplied(s, rows, ks, clock, rows') && NoneOwned(rows, ks)
    ensures AdminRowsKept(rows, rows')
  {
    forall id | AdminOwned(rows, id) ensures Get(rows', id) == Get(rows, id) {
      assert Get(rows', id) == Target(s, rows, ks, clock, id);
    }
  }

  /** In every mentioned project and the default project, the config rows are exactly the declared keys, each as
      its last declaration says. */
  lemma ConfigRowsAreDeclared(
      s: Setting, rows: Rows, ks: seq<KeyConfig>, clock: nat -> int, rows': Rows, project: string, id: string)
    requires IsApplied(s, rows, ks, clock, rows')
    requires Mentions(s, ks, project) || project == s.defaultProject
    ensures (id in rows' && rows'[id].origin == ORIGIN_CONFIG && rows'[id].projectId == project) <==>
            Declared(ks, id).Some? && ProjectOf(s, Declared(ks, id).value) == project
    ensures Declared(ks, id).Some? ==>
            && id in rows'
            && rows'[id] == RowOf(NewKeyOf(s, Declared(ks, id).value), rows'[id].createdAt, rows'[id].lastUsedAt)
  {
    assert Get(rows', id) == Target(s, rows, ks, clock, id);
  }

  /** A declared key is stored under the hash of its secret itself: the value of the variable that `env://` names, or
      the declared text. Its prefix tells live from test keys, and its last four characters are kept. */
  lemma StoredUnderItsSecret(
      s: Setting, rows: Rows, ks: seq<KeyConfig>, clock: nat -> int, rows': Rows, id: string, plaintext: string)
    requires IsApplied(s, rows, ks, clock, rows') && Declared(ks, id).Some?
    requires
      var secret := Declared(ks, id).value.secret;
      || (exists name :: name != [] && secret == "env://" + name && name in s.vars && s.vars[name] == plaintext)
      || (!("env://" <= secret) && secret == plaintext)
    ensures id in rows' && rows'[id].hash == s.hash(plaintext)
    ensures rows'[id].status == "active" && rows'[id].origin == "config"
    ensures (rows'[id].prefix == "sk-gw-live-" && "sk-gw-live-" <= plaintext)
            || (rows'[id].prefix == "sk-gw-test-" && "sk-gw-test-" <= plaintext)
    ensures |plaintext| >= 4 && |rows'[id].last4| == 4 && plaintext[|plaintext| - 4..] == rows'[id].last4
    ensures
      var k := Declared(ks, id).value;
      && rows'[id].id == id && rows'[id].name == k.name && rows'[id].scopes == k.scopes
      && rows'[id].projectId == (if k.projectId.Some? then k.projectId.value else s.defaultProject)
      && rows'[id].expiresAt.None? && rows'[id].revokedAt.None?
  {
    var k := Declared(ks, id).value;
    assert Get(rows', id) == Target(s, rows, ks, clock, id);
    if name :| name != [] && k.secret == "env://" + name && name in s.vars && s.vars[name] == plaintext {
      assert k.secret[6..] == name;
    }
    assert |"sk-gw-live-"| == 11 && |"sk-gw-test-"| == 11;
  }

  /** A secret is usable exactly when it resolves to a text with one of the two prefixes: `env://` alone and the empty
      text resolve to nothing, nor does a variable that is not set. */
  lemma UsableExactly(s: Setting, k: KeyConfig)
    ensures forall plaintext :: ResolveSecret(s, k.secret) == Some(plaintext) <==> ResolvesTo(s, k.secret, plaintext)
    ensures Usable(s, k) <==>
            exists plaintext ::
              ResolvesTo(s, k.secret, plaintext) && ("sk-gw-live-" <= plaintext || "sk-gw-test-" <= plaintext)
  {
    if "env://" <= k.secret {
      assert k.secret == "env://" + k.secret[6..];
    }
    forall plaintext | ResolvesTo(s, k.secret, plaintext) ensures ResolveSecret(s, k.secret) == Some(plaintext) {
      if name :| name != [] && k.secret == "env://" + name && name in s.vars && s.vars[name] == plaintext {
        assert k.secret[6..] == name;
      }
    }
    if Usable(s, k) {
      assert ResolvesTo(s, k.secret, ResolveSecret(s, k.secret).value);
    }
  }

  ghost predicate ResolvesTo(s: Setting, secret: string, plaintext: string) {
    || (exists name :: name != [] && secret == "env://" + name && name in s.vars && s.vars[name] == plaintext)
    || (!("env://" <= secret) && secret != [] && secret == plaintext)
  }

  /** Rows of projects that are not mentioned stay, except those a declaration takes over. */
  lemma OtherProjectsKept(s: Setting, rows: Rows, ks: seq<KeyConfig>, clock: nat -> int, rows': Rows, id: string)
    requires IsApplied(s, rows, ks, clock, rows') && id in rows && Declared(ks, id).None?
    requires !Mentions(s, ks, rows[id].projectId) && rows[id].projectId != s.defaultProject
    ensures Get(rows', id) == Get(rows, id)
  {
    assert Get(rows', id) == Target(s, rows, ks, clock, id);
  }

  /** Applying the same configuration again, at any later time, changes nothing. */
  lemma ApplyTwice(
      s: Setting, rows: Rows, ks: seq<KeyConfig>, clock: nat -> int, clock': nat -> int, once: Rows, twice: Rows)
    requires IsApplied(s, rows, ks, clock, once) && IsApplied(s, once, ks, clock', twice)
    ensures twice == once
  {
    forall id ensures Get(twice, id) == Get(once, id) {
      assert Get(once, id) == Target(s, rows, ks, clock, id);
      assert Get(twice, id) == Target(s, once, ks, clock', id);
    }
    SameRows(twice, once);
  }

  /** Birth and last use survive. */
  lemma BirthAndLastUseKept(s: Setting, rows: Rows, ks: seq<KeyConfig>, clock: nat -> int, rows': Rows, id: string)
    requires IsApplied(s, rows, ks, clock, rows') && id in rows && id in rows'
    ensures rows'[id].createdAt == rows[id].createdAt && rows'[id].lastUsedAt == rows[id].lastUsedAt
  {
    assert Get(rows', id) == Target(s, rows, ks, clock, id);
  }

  /** Pruning two projects gives the same rows in either order. */
  lemma PruneCommutes(rows: Rows, p: string, keepP: seq<string>, q: string, keepQ: seq<string>)
    ensures Prune(Prune(rows, p, keepP), q, keepQ) == Prune(Prune(rows, q, keepQ), p, keepP)
  {
    forall id
      ensures Get(Prune(Prune(rows, p, keepP), q, keepQ), id) == Get(Prune(Prune(rows, q, keepQ), p, keepP), id)
    {
    }
    SameRows(Prune(Prune(rows, p, keepP), q, keepQ), Prune(Prune(rows, q, keepQ), p, keepP));
  }
}

/** Building the OpenRouter indexes from a feed of model rows. */
module OpenRouter {
  import opened Common
  import opened Catalog

  /** A feed row as deserialized; a price is absent when its text is not a number. */
  datatype FeedRow =
    | Malformed(rawId: string)
    | Model(id: string, slug: string, prompt: Option<real>, completion: Option<real>, cacheRead: Option<Option<real>>)

  /** A row that passes every check that does not depend on other rows. `plain`: its id field has no ':'. */
  datatype Candidate = Candidate(id: string, slug: string, entry: PricingEntry, plain: bool)

  function Per1k(price: Option<real>): Option<real> {
    if price.Some? && price.value * 1000.0 >= 0.0 then Some(price.value * 1000.0) else None
  }

  predicate EndsWithSlash(s: string) {
    s != [] && s[|s| - 1] == '/'
  }

  predicate IsPlain(row: FeedRow) {
    match row
    case Malformed(rawId) => ':' !in rawId
    case Model(id, _, _, _, _) => ':' !in id
  }

  function CandidateOf(row: FeedRow): Option<Candidate> {
    match row
    case Malformed(_) => None
    case Model(rawId, slug, prompt, completion, cacheRead) =>
      if slug == [] || EndsWithSlash(slug) then None else
      var id := if rawId == [] then slug else rawId;
      if EndsWithSlash(id) || Per1k(prompt).None? || Per1k(completion).None? then None
      else if cacheRead.Some? && Per1k(cacheRead.value).None? then None
      else
        var cached := if cacheRead.Some? then Per1k(cacheRead.value) else None;
        Some(Candidate(id, slug,
          PricingEntry("*", id, Per1k(prompt).value, Per1k(completion).value, cached), IsPlain(row)))
  }

  function Candidates(rows: seq<FeedRow>): seq<Candidate> {
    if rows == [] then []
    else
      var c := CandidateOf(rows[|rows| - 1]);
      Candidates(rows[..|rows| - 1]) + if c.Some? then [c.value] else []
  }

  /** The stable sort by "id contains ':'": rows without it first. */
  function Keep(rows: seq<FeedRow>, plain: bool): seq<FeedRow> {
    if rows == [] then []
    else Keep(rows[..|rows| - 1], plain) + if IsPlain(rows[|rows| - 1]) == plain then [rows[|rows| - 1]] else []
  }

  function PlainFirst(rows: seq<FeedRow>): seq<FeedRow> {
    Keep(rows, true) + Keep(rows, false)
  }

  // ---- What the indexes are to contain ----

  /** The first candidate with an id; a later one with the same id is not accepted. */
  function FirstWithId(cs: seq<Candidate>, id: string): Option<Candidate> {
    if cs == [] then None
    else
      var last := cs[|cs| - 1];
      FirstWithId(cs[..|cs| - 1], id).OrElse(if last.id == id then Some(last) else None)
  }

  function Accepted(cs: seq<Candidate>): seq<Candidate> {
    if cs == [] then []
    else
      var init, last := cs[..|cs| - 1], cs[|cs| - 1];
      Accepted(init) + if FirstWithId(init, last.id).None? then [last] else []
  }

  function FirstWithSlug(cs: seq<Candidate>, slug: string): Option<Candidate> {
    if cs == [] then None
    else
      var last := cs[|cs| - 1];
      FirstWithSlug(cs[..|cs| - 1], slug).OrElse(if last.slug == slug then Some(last) else None)
  }

  ghost predicate IdsIndexed(cs: seq<Candidate>, openrouter: map<string, PricingEntry>, slugs: map<string, string>) {
    forall id ::
      && (id in openrouter <==> FirstWithId(cs, id).Some?) && (id in slugs <==> FirstWithId(cs, id).Some?)
      && (id in openrouter ==>
            openrouter[id] == FirstWithId(cs, id).value.entry && slugs[id] == FirstWithId(cs, id).value.slug)
  }

  ghost predicate SlugsIndexed(accepted: seq<Candidate>, bySlug: map<string, string>) {
    forall s ::
      && (s in bySlug <==> FirstWithSlug(accepted, s).Some?)
      && (s in bySlug ==> bySlug[s] == FirstWithSlug(accepted, s).value.id)
  }

  lemma Append<T>(s: seq<T>, x: T)
    ensures (s + [x])[..|s + [x]| - 1] == s && (s + [x])[|s + [x]| - 1] == x
  {
  }

  lemma IdStep(
      cs: seq<Candidate>, c: Candidate, o: map<string, PricingEntry>, s: map<string, string>)
    requires IdsIndexed(cs, o, s)
    ensures c.id in o ==> IdsIndexed(cs + [c], o, s) && Accepted(cs + [c]) == Accepted(cs)
    ensures c.id !in o ==>
              IdsIndexed(cs + [c], o[c.id := c.entry], s[c.id := c.slug]) && Accepted(cs + [c]) == Accepted(cs) + [c]
  {
    Append(cs, c);
  }

  lemma SlugStep(accepted: seq<Candidate>, c: Candidate, b: map<string, string>)
    requires SlugsIndexed(accepted, b)
    ensures SlugsIndexed(accepted + [c], if c.slug in b then b else b[c.slug := c.id])
  {
    Append(accepted, c);
  }

  method BuildIndex(rows: seq<FeedRow>)
    returns (openrouter: map<string, PricingEntry>, slugs: map<string, string>, bySlug: map<string, string>)
    ensures IdsIndexed(Candidates(rows), openrouter, slugs)
    ensures SlugsIndexed(Accepted(Candidates(rows)), bySlug)
  {
    openrouter, slugs, bySlug := map[], map[], map[];
    for n := 0 to |rows|
      invariant IdsIndexed(Candidates(rows[..n]), openrouter, slugs)
      invariant SlugsIndexed(Accepted(Candidates(rows[..n])), bySlug)
    {
      assert rows[..n + 1][..n] == rows[..n];
      ghost var cs := Candidates(rows[..n]);
      var candidate := CandidateOf(rows[n]);
      if candidate.None? {
        assert Candidates(rows[..n + 1]) == cs;
        continue;
      }
      var c := candidate.value;
      IdStep(cs, c, openrouter, slugs);
      if c.id in openrouter {
        continue;
      }
      SlugStep(Accepted(cs), c, bySlug);
      if c.slug !in bySlug {
        bySlug := bySlug[c.slug := c.id];
      }
      slugs := slugs[c.id := c.slug];
      openrouter := openrouter[c.id := c.entry];
    }
    assert rows[..|rows|] == rows;
  }

  // ---- Unambiguous short names ----

  /** The ids carried by the names whose last segment is `short`. */
  function IdsOf(names: seq<(string, string)>, short: string): set<string> {
    if names == [] then {}
    else
      var (name, id) := names[|names| - 1];
      IdsOf(names[..|names| - 1], short) + if LastSegment(name) == short then {id} else {}
  }

  /** What the loop knows about one short name after reading `names`. */
  ghost predicate Tracks(
      names: seq<(string, string)>, aliases: map<string, string>, ambiguous: set<string>, short: string) {
    var ids := IdsOf(names, short);
    if short !in aliases then short !in ambiguous && ids == {}
    else aliases[short] in ids && (short !in ambiguous <==> ids == {aliases[short]})
  }

  lemma TracksStep(
      names: seq<(string, string)>, aliases: map<string, string>, ambiguous: set<string>, name: string,
          id: string, short: string)
    requires Tracks(names, aliases, ambiguous, short)
    ensures
      var s := LastSegment(name);
      var a := if s in aliases && aliases[s] != id then ambiguous + {s} else ambiguous;
      Tracks(names + [(name, id)], aliases[s := id], a, short)
  {
    Append(names, (name, id));
    if LastSegment(name) == short && short in aliases {
      assert aliases[short] in IdsOf(names, short) + {id};
    }
  }

  /** A short name is kept with `id` exactly when all names that end in it, and at least one, carry `id`. */
  method UniqueLastSegments(names: seq<(string, string)>) returns (aliases: map<string, string>)
    ensures forall short :: short in aliases ==> IdsOf(names, short) == {aliases[short]}
    ensures forall short :: short !in aliases ==> forall id :: IdsOf(names, short) != {id}
  {
    aliases := map[];
    var ambiguous: set<string> := {};
    for n := 0 to |names|
      invariant forall short :: Tracks(names[..n], aliases, ambiguous, short)
    {
      var (name, id) := names[n];
      var short := LastSegment(name);
      ghost var now := if short in aliases && aliases[short] != id then ambiguous + {short} else ambiguous;
      ghost var read, updated := names[..n + 1], aliases[short := id];
      assert read == names[..n] + [(name, id)];
      forall s ensures Tracks(read, updated, now, s) {
        TracksStep(names[..n], aliases, ambiguous, name, id, s);
      }
      if short in aliases && aliases[short] != id {
        ambiguous := ambiguous + {short};
      }
      aliases := aliases[short := id];
    }
    assert names[..|names|] == names;
    forall short
      ensures short in aliases && short !in ambiguous ==> IdsOf(names, short) == {aliases[short]}
      ensures short !in aliases || short in ambiguous ==> forall id :: IdsOf(names, short) != {id}
    {
      assert Tracks(names, aliases, ambiguous, short);
    }
    aliases := aliases - ambiguous;
  }

  lemma {:induction false} IdsOfMembers(names: seq<(string, string)>, short: string, id: string)
    ensures id in IdsOf(names, short) <==> exists p :: p in names && LastSegment(p.0) == short && p.1 == id
  {
    if names != [] {
      var init, last := names[..|names| - 1], names[|names| - 1];
      assert names == init + [last];
      IdsOfMembers(init, short, id);
      assert last in names;
    }
  }

  /** The iteration order of the hash map behind the names does not matter. */
  lemma OrderIrrelevant(a: seq<(string, string)>, b: seq<(string, string)>, short: string)
    requires forall p :: p in a <==> p in b
    ensures IdsOf(a, short) == IdsOf(b, short)
  {
    forall id ensures id in IdsOf(a, short) <==> id in IdsOf(b, short) {
      IdsOfMembers(a, short, id);
      IdsOfMembers(b, short, id);
    }
  }

  // ---- The whole catalog ----

  datatype FeedError = NoUsablePrices

  /** Hash-map iteration: the pairs of a map, in no particular order. */
  method Pairs(m: map<string, string>) returns (ps: seq<(string, string)>)
    ensures forall p :: p in ps <==> p.0 in m && m[p.0] == p.1
  {
    ps := [];
    var todo := m.Keys;
    while todo != {}
      invariant todo <= m.Keys
      invariant forall p :: p in ps <==> p.0 in m && p.0 !in todo && m[p.0] == p.1
      decreases |todo|
    {
      var k :| k in todo;
      ps := ps + [(k, m[k])];
      todo := todo - {k};
    }
  }

  /** The catalog of a feed: the four name indexes over the accepted rows, plain ids taking slugs first. */
  ghost predicate CatalogOf(rows: seq<FeedRow>, c: Catalog) {
    var cs := Candidates(PlainFirst(rows));
    && c.byKey == map[]
    && IdsIndexed(cs, c.openrouter, c.slugs)
    && SlugsIndexed(Accepted(cs), c.bySlug)
    && IsShortNames(c.bySlug, c.bySlugModel)
    && IsShortNames(SelfMap(c.openrouter.Keys), c.byIdModel)
  }

  function SelfMap(ids: set<string>): map<string, string> {
    map id | id in ids :: id
  }

  /** Some name in `m` ends in `short`, and all that do are mapped to `id`. */
  ghost predicate OnlyTarget(m: map<string, string>, short: string, id: string) {
    && (exists s :: s in m && LastSegment(s) == short)
    && (forall s :: s in m && LastSegment(s) == short ==> m[s] == id)
  }

  /** `aliases` has exactly the unambiguous last segments of the names in `m`. */
  ghost predicate IsShortNames(m: map<string, string>, aliases: map<string, string>) {
    forall short, id :: (short in aliases && aliases[short] == id) <==> OnlyTarget(m, short, id)
  }

  lemma SingleId(m: map<string, string>, ps: seq<(string, string)>, short: string, id: string)
    requires forall p :: p in ps <==> p.0 in m && m[p.0] == p.1
    ensures IdsOf(ps, short) == {id} <==> OnlyTarget(m, short, id)
  {
    forall s | s in m && LastSegment(s) == short ensures m[s] in IdsOf(ps, short) {
      assert (s, m[s]) in ps;
      IdsOfMembers(ps, short, m[s]);
    }
    forall x | x in IdsOf(ps, short) ensures exists s :: s in m && LastSegment(s) == short && m[s] == x {
      IdsOfMembers(ps, short, x);
    }
    assert IdsOf(ps, short) == {id} ==> id in IdsOf(ps, short);
    if OnlyTarget(m, short, id) {
      assert IdsOf(ps, short) == {id};
    }
  }

  method ShortNames(m: map<string, string>) returns (aliases: map<string, string>)
    ensures IsShortNames(m, aliases)
  {
    var ps := Pairs(m);
    aliases := UniqueLastSegments(ps);
    forall short, id ensures (short in aliases && aliases[short] == id) <==> OnlyTarget(m, short, id) {
      SingleId(m, ps, short, id);
    }
  }

  method ParseOpenRouter(rows: seq<FeedRow>) returns (r: Result<Catalog, FeedError>)
    ensures r.Err? <==> Candidates(PlainFirst(rows)) == []
    ensures r.Ok? ==> CatalogOf(rows, r.value)
  {
    var openrouter, slugs, bySlug := BuildIndex(PlainFirst(rows));
    NonEmpty(Candidates(PlainFirst(rows)), openrouter, slugs);
    if openrouter == map[] {
      return Err(NoUsablePrices);
    }
    var bySlugModel := ShortNames(bySlug);
    var byIdModel := ShortNames(SelfMap(openrouter.Keys));
    r := Ok(Catalog(map[], openrouter, bySlug, bySlugModel, byIdModel, slugs));
  }

  lemma NonEmpty(
      cs: seq<Candidate>, openrouter: map<string, PricingEntry>, slugs: map<string, string>)
    requires IdsIndexed(cs, openrouter, slugs)
    ensures openrouter == map[] <==> cs == []
  {
    if cs != [] {
      assert FirstWithId(cs, cs[|cs| - 1].id).Some?;
    }
    assert forall id :: id in openrouter ==> FirstWithId(cs, id).Some?;
  }

  // ---- What holds of every feed's catalog ----

  lemma {:induction false} FirstFacts(cs: seq<Candidate>, id: string)
    ensures FirstWithId(cs, id).Some? ==> FirstWithId(cs, id).value.id == id && FirstWithId(cs, id).value in cs
  {
    if cs != [] {
      FirstFacts(cs[..|cs| - 1], id);
    }
  }

  lemma {:induction false} AcceptedIsFirst(cs: seq<Candidate>, c: Candidate)
    requires c in Accepted(cs)
    ensures FirstWithId(cs, c.id) == Some(c)
  {
    var init, last := cs[..|cs| - 1], cs[|cs| - 1];
    if c in Accepted(init) {
      AcceptedIsFirst(init, c);
    } else {
      assert c == last;
    }
  }

  lemma {:induction false} SlugFacts(cs: seq<Candidate>, slug: string)
    ensures
      var f := FirstWithSlug(cs, slug);
      f.Some? ==> f.value.slug == slug && f.value in cs
  {
    if cs != [] {
      SlugFacts(cs[..|cs| - 1], slug);
    }
  }

  lemma {:induction false} EntryNamesItsId(rows: seq<FeedRow>, c: Candidate)
    requires c in Candidates(rows)
    ensures c.entry.model == c.id && c.entry.provider == "*"
  {
    var init, last := rows[..|rows| - 1], CandidateOf(rows[|rows| - 1]);
    if c in Candidates(init) {
      EntryNamesItsId(init, c);
    } else {
      assert last == Some(c);
    }
  }

  /** Every feed's catalog is coherent: so the lookup theorems hold of it, and of every overlay of it. */
  lemma FeedIsCoherent(rows: seq<FeedRow>, c: Catalog)
    requires CatalogOf(rows, c)
    ensures Coherent(c)
  {
    var cs := Candidates(PlainFirst(rows));
    forall id | id in c.openrouter ensures c.openrouter[id].model == id && c.openrouter[id].provider == "*" {
      FirstFacts(cs, id);
      EntryNamesItsId(PlainFirst(rows), FirstWithId(cs, id).value);
    }
    forall s | s in c.bySlug ensures c.bySlug[s] in c.openrouter && c.slugs[c.bySlug[s]] == s {
      SlugFacts(Accepted(cs), s);
      AcceptedIsFirst(cs, FirstWithSlug(Accepted(cs), s).value);
    }
    forall n | n in c.bySlugModel ensures c.bySlugModel[n] in c.openrouter {
      assert OnlyTarget(c.bySlug, n, c.bySlugModel[n]);
    }
    forall n | n in c.byIdModel ensures c.byIdModel[n] in c.openrouter {
      assert OnlyTarget(SelfMap(c.openrouter.Keys), n, c.byIdModel[n]);
    }
    assert c.openrouter.Keys == c.slugs.Keys;
  }

  // ---- Plain ids take slugs first ----

  ghost predicate PlainThenOthers(cs: seq<Candidate>) {
    forall i, j :: 0 <= i < j < |cs| && cs[j].plain ==> cs[i].plain
  }

  lemma {:induction false} SomePlainSlug(cs: seq<Candidate>, c: Candidate)
    requires PlainThenOthers(cs) && c in cs && c.plain
    ensures FirstWithSlug(cs, c.slug).Some? && FirstWithSlug(cs, c.slug).value.plain
  {
    var n := |cs| - 1;
    if c in cs[..n] {
      SomePlainSlug(cs[..n], c);
    } else {
      SlugFacts(cs[..n], c.slug);
      if FirstWithSlug(cs[..n], c.slug).Some? {
        var f := FirstWithSlug(cs[..n], c.slug).value;
        var i :| 0 <= i < n && cs[i] == f;
        assert cs[n].plain;
      }
    }
  }

  lemma {:induction false} AcceptedOrder(cs: seq<Candidate>)
    requires PlainThenOthers(cs)
    ensures PlainThenOthers(Accepted(cs)) && forall c :: c in Accepted(cs) ==> c in cs
  {
    if cs != [] {
      var n := |cs| - 1;
      AcceptedOrder(cs[..n]);
      forall c | c in Accepted(cs[..n]) && cs[n].plain ensures c.plain {
        var i :| 0 <= i < n && cs[i] == c;
      }
    }
  }

  lemma {:induction false} CandidatesConcat(a: seq<FeedRow>, b: seq<FeedRow>)
    ensures Candidates(a + b) == Candidates(a) + Candidates(b)
  {
    if b == [] {
      assert a + b == a;
    } else {
      var n := |b| - 1;
      assert (a + b)[..|a + b| - 1] == a + b[..n];
      CandidatesConcat(a, b[..n]);
    }
  }

  lemma {:induction false} KeptCandidates(rows: seq<FeedRow>, plain: bool)
    ensures forall c :: c in Candidates(Keep(rows, plain)) ==> c.plain == plain
  {
    if rows != [] {
      var n := |rows| - 1;
      KeptCandidates(rows[..n], plain);
      if IsPlain(rows[n]) == plain {
        Append(Keep(rows[..n], plain), rows[n]);
      } else {
        assert Keep(rows, plain) == Keep(rows[..n], plain);
      }
    }
  }

  /** A slug leads to a row whose id has no ':' whenever such a row with that slug was accepted. */
  lemma SlugPrefersPlainIds(rows: seq<FeedRow>, c: Catalog, x: Candidate)
    requires CatalogOf(rows, c) && x in Accepted(Candidates(PlainFirst(rows))) && x.plain
    ensures
      var cs := Candidates(PlainFirst(rows));
      && x.slug in c.bySlug
      && FirstWithId(cs, c.bySlug[x.slug]).Some? && FirstWithId(cs, c.bySlug[x.slug]).value.plain
  {
    var cs := Candidates(PlainFirst(rows));
    CandidatesConcat(Keep(rows, true), Keep(rows, false));
    KeptCandidates(rows, true);
    KeptCandidates(rows, false);
    assert PlainThenOthers(cs);
    AcceptedOrder(cs);
    SomePlainSlug(Accepted(cs), x);
    SlugFacts(Accepted(cs), x.slug);
    AcceptedIsFirst(cs, FirstWithSlug(Accepted(cs), x.slug).value);
  }

  // ---- Entries and rows ----

  /** The entry under `id` says what the row says: its id (or slug, when it has none), and its prices times 1000. */
  ghost predicate Describes(row: FeedRow, id: string, slug: string, e: PricingEntry) {
    && row.Model? && row.slug == slug && id == (if row.id == [] then row.slug else row.id)
    && row.prompt.Some? && e.inputPer1k == row.prompt.value * 1000.0 >= 0.0
    && row.completion.Some? && e.outputPer1k == row.completion.value * 1000.0 >= 0.0
    && (row.cacheRead.None? ==> e.cachedInputPer1k.None?)
    && (row.cacheRead.Some? ==>
          row.cacheRead.value.Some? && e.cachedInputPer1k == Some(row.cacheRead.value.value * 1000.0))
  }

  lemma {:induction false} CandidateRow(rows: seq<FeedRow>, x: Candidate) returns (row: FeedRow)
    requires x in Candidates(rows)
    ensures row in rows && CandidateOf(row) == Some(x)
  {
    var n := |rows| - 1;
    if x in Candidates(rows[..n]) {
      row := CandidateRow(rows[..n], x);
    } else {
      row := rows[n];
    }
  }

  lemma {:induction false} RowCandidate(rows: seq<FeedRow>, row: FeedRow)
    requires row in rows && CandidateOf(row).Some?
    ensures CandidateOf(row).value in Candidates(rows)
  {
    var n := |rows| - 1;
    if row in rows[..n] {
      RowCandidate(rows[..n], row);
    }
  }

  lemma {:induction false} KeepMembers(rows: seq<FeedRow>, plain: bool, row: FeedRow)
    ensures row in Keep(rows, plain) <==> row in rows && IsPlain(row) == plain
  {
    if rows != [] {
      var n := |rows| - 1;
      KeepMembers(rows[..n], plain, row);
      assert rows == rows[..n] + [rows[n]];
    }
  }

  /** Every entry comes from a row of the feed and says what that row says. */
  lemma EntriesAreRows(rows: seq<FeedRow>, c: Catalog, id: string)
    requires CatalogOf(rows, c) && id in c.openrouter
    ensures exists row :: row in rows && Describes(row, id, c.slugs[id], c.openrouter[id])
  {
    var cs := Candidates(PlainFirst(rows));
    FirstFacts(cs, id);
    var row := CandidateRow(PlainFirst(rows), FirstWithId(cs, id).value);
    KeepMembers(rows, true, row);
    KeepMembers(rows, false, row);
    assert Describes(row, id, c.slugs[id], c.openrouter[id]);
  }

  lemma {:induction false} CandidateHasFirst(cs: seq<Candidate>, x: Candidate)
    requires x in cs
    ensures FirstWithId(cs, x.id).Some?
  {
    var n := |cs| - 1;
    if x in cs[..n] {
      CandidateHasFirst(cs[..n], x);
    }
  }

  /** Every usable row's id is in the catalog: only a row with the same id can take its place. */
  lemma UsableRowsListed(rows: seq<FeedRow>, c: Catalog, row: FeedRow)
    requires CatalogOf(rows, c) && row in rows && CandidateOf(row).Some?
    ensures CandidateOf(row).value.id in c.openrouter
  {
    KeepMembers(rows, true, row);
    KeepMembers(rows, false, row);
    RowCandidate(PlainFirst(rows), row);
    CandidateHasFirst(Candidates(PlainFirst(rows)), CandidateOf(row).value);
  }

  // ---- From the feed to the price ----

  /** The row has a slug and an id that do not end in '/', and its prices are numbers, none of them negative: a price of
      zero is as good as any. */
  ghost predicate Usable(row: FeedRow) {
    && row.Model? && row.slug != [] && row.slug[|row.slug| - 1] != '/'
    && (row.id != [] ==> row.id[|row.id| - 1] != '/')
    && row.prompt.Some? && row.prompt.value >= 0.0 && row.completion.Some? && row.completion.value >= 0.0
    && (row.cacheRead.Some? ==> row.cacheRead.value.Some? && row.cacheRead.value.value >= 0.0)
  }

  lemma UsableIsCandidate(row: FeedRow)
    ensures Usable(row) <==> CandidateOf(row).Some?
    ensures Usable(row) ==> CandidateOf(row).value.id == (if row.id == [] then row.slug else row.id)
    ensures Usable(row) ==> CandidateOf(row).value.slug == row.slug
  {
  }

  /** The feed is refused exactly when it has no usable row. */
  lemma RefusedExactly(rows: seq<FeedRow>)
    ensures Candidates(PlainFirst(rows)) == [] <==> forall row :: row in rows ==> !Usable(row)
  {
    forall row | row in rows && Usable(row) ensures Candidates(PlainFirst(rows)) != [] {
      UsableIsCandidate(row);
      KeepMembers(rows, true, row);
      KeepMembers(rows, false, row);
      RowCandidate(PlainFirst(rows), row);
    }
    if Candidates(PlainFirst(rows)) != [] {
      var row := CandidateRow(PlainFirst(rows), Candidates(PlainFirst(rows))[0]);
      UsableIsCandidate(row);
      KeepMembers(rows, true, row);
      KeepMembers(rows, false, row);
    }
  }

  function IdOf(row: FeedRow): string
    requires row.Model?
  {
    if row.id == [] then row.slug else row.id
  }

  lemma {:induction false} SomeWithSlug(cs: seq<Candidate>, x: Candidate)
    requires x in cs
    ensures exists y :: y in Accepted(cs) && y.id == x.id
  {
    var n := |cs| - 1;
    if x in cs[..n] {
      SomeWithSlug(cs[..n], x);
      var y :| y in Accepted(cs[..n]) && y.id == x.id;
      assert y in Accepted(cs);
    } else if FirstWithId(cs[..n], x.id).None? {
      assert x in Accepted(cs);
    } else {
      FirstFacts(cs[..n], x.id);
      SomeWithSlug(cs[..n], FirstWithId(cs[..n], x.id).value);
      var y :| y in Accepted(cs[..n]) && y.id == x.id;
      assert y in Accepted(cs);
    }
  }

  lemma {:induction false} SlugIsFound(cs: seq<Candidate>, x: Candidate)
    requires x in cs
    ensures FirstWithSlug(cs, x.slug).Some?
  {
    if x in cs[..|cs| - 1] {
      SlugIsFound(cs[..|cs| - 1], x);
    }
  }

  /** The id of every usable row has a price, and so has the slug of every entry; without a slug of the same spelling an
      id costs what its own entry says. */
  lemma IdsAndSlugsPriced(rows: seq<FeedRow>, c: Catalog, row: FeedRow, provider: string)
    requires CatalogOf(rows, c) && row in rows && Usable(row)
    ensures
      var id := IdOf(row);
      && id in c.openrouter && Lookup(c, provider, id).Some? && Lookup(c, provider, c.slugs[id]).Some?
      && (id !in c.bySlug && id !in c.bySlugModel ==> Lookup(c, provider, id) == Some(c.openrouter[id]))
  {
    var id, cs := IdOf(row), Candidates(PlainFirst(rows));
    FeedIsCoherent(rows, c);
    UsableIsCandidate(row);
    UsableRowsListed(rows, c, row);
    PricedNames(c, provider, id);
    if id !in c.bySlug && id !in c.bySlugModel {
      FeedPrice(c, provider, id, id);
    }
    FirstFacts(cs, id);
    SomeWithSlug(cs, FirstWithId(cs, id).value);
    var y :| y in Accepted(cs) && y.id == id;
    AcceptedIsFirst(cs, y);
    SlugIsFound(Accepted(cs), y);
    PricedNames(c, provider, y.slug);
  }

  /** A short name has a price when all slugs, or all ids, that end in it belong to one id; and it is the price of that
      id, the slugs deciding first. */
  lemma ShortNamesPriced(rows: seq<FeedRow>, c: Catalog, short: string, id: string, provider: string)
    requires CatalogOf(rows, c) && short !in c.bySlug
    ensures OnlyTarget(c.bySlug, short, id) ==>
              id in c.openrouter && Lookup(c, provider, short) == Some(c.openrouter[id])
    ensures short !in c.bySlugModel && short !in c.openrouter && OnlyTarget(SelfMap(c.openrouter.Keys), short, id) ==>
              id in c.openrouter && Lookup(c, provider, short) == Some(c.openrouter[id])
  {
    FeedIsCoherent(rows, c);
    if OnlyTarget(c.bySlug, short, id) {
      assert short in c.bySlugModel && c.bySlugModel[short] == id;
      FeedPrice(c, provider, short, id);
    }
    if short !in c.bySlugModel && short !in c.openrouter && OnlyTarget(SelfMap(c.openrouter.Keys), short, id) {
      assert short in c.byIdModel && c.byIdModel[short] == id;
      FeedPrice(c, provider, short, id);
    }
  }

  /** A slug leads to a row of the feed without ':' in its id field whenever such a row with that slug was accepted. */
  lemma SlugPrefersStandardRows(rows: seq<FeedRow>, c: Catalog, row: FeedRow)
    requires CatalogOf(rows, c) && row in rows && Usable(row) && ':' !in row.id
    requires CandidateOf(row).value in Accepted(Candidates(PlainFirst(rows)))
    ensures row.slug in c.bySlug
    ensures exists other :: other in rows && Usable(other) && ':' !in other.id && IdOf(other) == c.bySlug[row.slug]
  {
    var cs := Candidates(PlainFirst(rows));
    UsableIsCandidate(row);
    SlugPrefersPlainIds(rows, c, CandidateOf(row).value);
    var id := c.bySlug[row.slug];
    FirstFacts(cs, id);
    var other := CandidateRow(PlainFirst(rows), FirstWithId(cs, id).value);
    KeepMembers(rows, true, other);
    KeepMembers(rows, false, other);
    UsableIsCandidate(other);
  }
}

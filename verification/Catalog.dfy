/** The price catalog: local prices by (provider, model), the OpenRouter indexes, and the lookup over both. */
module Catalog {
  import opened Common

  datatype PricingEntry = PricingEntry(
    provider: string, model: string, inputPer1k: real, outputPer1k: real, cachedInputPer1k: Option<real>)

  datatype Catalog = Catalog(
    byKey: map<(string, string), PricingEntry>,
    openrouter: map<string, PricingEntry>,      // by API id
    bySlug: map<string, string>,                // canonical slug to id
    bySlugModel: map<string, string>,           // unambiguous last segment of a slug to id
    byIdModel: map<string, string>,             // unambiguous last segment of an id to id
    slugs: map<string, string>)                 // id to canonical slug

  const EMPTY := Catalog(map[], map[], map[], map[], map[], map[])

  /** `rsplit_once`: split at the last `c`. */
  function SplitLast(s: string, c: char): (r: Option<(string, string)>)
    ensures r.None? <==> c !in s
    ensures r.Some? ==> s == r.value.0 + [c] + r.value.1 && c !in r.value.1
  {
    if s == [] then None
    else
      var n := |s| - 1;
      assert s == s[..n] + [s[n]];
      if s[n] == c then Some((s[..n], []))
      else
        match SplitLast(s[..n], c)
        case None => None
        case Some((prefix, suffix)) => Some((prefix, suffix + [s[n]]))
  }

  /** `rsplit('/').next()`. */
  function LastSegment(name: string): string {
    match SplitLast(name, '/')
    case None => name
    case Some((_, last)) => last
  }

  /** The model name without a trailing `-<digits>`. */
  function StripDate(model: string): Option<string> {
    match SplitLast(model, '-')
    case Some((prefix, suffix)) => if AllDigits(suffix) then Some(prefix) else None
    case None => None
  }

  lemma {:induction false} SplitLastAt(prefix: string, c: char, suffix: string)
    requires c !in suffix
    ensures SplitLast(prefix + [c] + suffix, c) == Some((prefix, suffix))
  {
    var s := prefix + [c] + suffix;
    var n := |s| - 1;
    if suffix == [] {
      assert s[n] == c && s[..n] == prefix;
    } else {
      var m := |suffix| - 1;
      assert s[..n] == prefix + [c] + suffix[..m] && suffix == suffix[..m] + [suffix[m]];
      SplitLastAt(prefix, c, suffix[..m]);
    }
  }

  /** A name is shortened exactly to what precedes a '-' followed only by digits, or by nothing at all: a
      trailing '-' counts as a date. */
  lemma StripsExactly(model: string, short: string)
    ensures StripDate(model) == Some(short) <==> exists digits :: AllDigits(digits) && model == short + ['-'] + digits
    ensures StripDate(short + ['-']) == Some(short)
  {
    forall digits | AllDigits(digits) && model == short + ['-'] + digits ensures StripDate(model) == Some(short) {
      SplitLastAt(short, '-', digits);
    }
    SplitLastAt(short, '-', []);
    assert short + ['-'] + [] == short + ['-'];
  }

  /** The last segment of a name is what follows its last '/', or all of it. */
  lemma LastSegmentExactly(prefix: string, last: string)
    requires '/' !in last
    ensures LastSegment(prefix + ['/'] + last) == last && LastSegment(last) == last
  {
    SplitLastAt(prefix, '/', last);
  }

  /** Local prices that win outright: exact, then without the date suffix, then provider-independent. */
  function Direct(c: Catalog, provider: string, model: string): Option<PricingEntry> {
    Get(c.byKey, (provider, model))
    .OrElse(match StripDate(model) case Some(m) => Get(c.byKey, (provider, m)) case None => None)
    .OrElse(Get(c.byKey, ("*", model)))
  }

  /** Slug, slug's last segment, API id, id's last segment. */
  function Resolve(c: Catalog, model: string): Option<PricingEntry> {
    var bySlug := Get(c.bySlug, model).OrElse(Get(c.bySlugModel, model));
    (match bySlug case Some(id) => Get(c.openrouter, id) case None => None)
    .OrElse(Get(c.openrouter, model))
    .OrElse(match Get(c.byIdModel, model) case Some(id) => Get(c.openrouter, id) case None => None)
  }

  /** Local prices for the entry under either of its names still win over the feed's price. */
  function Honoured(c: Catalog, provider: string, entry: PricingEntry, slug: string): PricingEntry {
    Get(c.byKey, (provider, entry.model))
    .OrElse(Get(c.byKey, (provider, slug)))
    .OrElse(Get(c.byKey, ("*", entry.model)))
    .OrElse(Get(c.byKey, ("*", slug)))
    .UnwrapOr(entry)
  }

  function Lookup(c: Catalog, provider: string, model: string): Option<PricingEntry> {
    Direct(c, provider, model).OrElse(
      match Resolve(c, model)
      case None => None
      case Some(entry) =>
        match Get(c.slugs, entry.model)
        case None => None
        case Some(slug) => Some(Honoured(c, provider, entry, slug)))
  }

  /** The prices the admin listing shows. */
  ghost predicate Shown(c: Catalog, e: PricingEntry) {
    || (exists k :: k in c.byKey && c.byKey[k] == e)
    || (exists id :: id in c.openrouter && c.openrouter[id] == e
          && (e.provider, e.model) !in c.byKey
          && !(e.model in c.slugs && (e.provider, c.slugs[e.model]) in c.byKey))
  }

  /** The indexes fit together: what a feed's catalog and every overlay of it satisfy. */
  ghost predicate Coherent(c: Catalog) {
    && c.openrouter.Keys == c.slugs.Keys
    && (forall id :: id in c.openrouter ==> c.openrouter[id].model == id && c.openrouter[id].provider == "*")
    && (forall s :: s in c.bySlug ==> c.bySlug[s] in c.openrouter && c.slugs[c.bySlug[s]] == s)
    && (forall n :: n in c.bySlugModel ==> c.bySlugModel[n] in c.openrouter)
    && (forall n :: n in c.byIdModel ==> c.byIdModel[n] in c.openrouter)
  }

  function KeyOf(e: PricingEntry): (string, string) {
    (e.provider, e.model)
  }

  /** The last of `es` priced under `k`. */
  function Latest(es: seq<PricingEntry>, k: (string, string)): Option<PricingEntry> {
    if es == [] then None
    else if KeyOf(es[|es| - 1]) == k then Some(es[|es| - 1])
    else Latest(es[..|es| - 1], k)
  }

  /** A copy with local prices layered on top: for each key the last override wins, others keep their price. */
  method WithOverrides(c: Catalog, overrides: seq<PricingEntry>) returns (r: Catalog)
    ensures r == c.(byKey := r.byKey)
    ensures forall k :: Get(r.byKey, k) == Latest(overrides, k).OrElse(Get(c.byKey, k))
    ensures Coherent(c) ==> Coherent(r)
  {
    r := c;
    for n := 0 to |overrides|
      invariant r == c.(byKey := r.byKey)
      invariant forall k :: Get(r.byKey, k) == Latest(overrides[..n], k).OrElse(Get(c.byKey, k))
    {
      assert overrides[..n + 1][..n] == overrides[..n];
      r := r.(byKey := r.byKey[KeyOf(overrides[n]) := overrides[n]]);
    }
    assert overrides[..|overrides|] == overrides;
  }

  /** In a coherent catalog the lookup finds a price exactly when a local price or a feed entry answers to
      the name: a resolved entry is never dropped for want of its slug. */
  lemma LookupNeverDrops(c: Catalog, provider: string, model: string)
    requires Coherent(c)
    ensures Lookup(c, provider, model).Some? <==> Direct(c, provider, model).Some? || Resolve(c, model).Some?
  {
  }

  /** Names that lead to the same feed entry get the same price under a provider. */
  lemma SameEntrySamePrice(c: Catalog, provider: string, a: string, b: string)
    requires Coherent(c) && Direct(c, provider, a).None? && Direct(c, provider, b).None?
    requires Resolve(c, a) == Resolve(c, b)
    ensures Lookup(c, provider, a) == Lookup(c, provider, b)
  {
  }

  /** Every price the lookup can return is one the admin listing shows. */
  lemma LookupIsShown(c: Catalog, provider: string, model: string)
    requires Coherent(c) && Lookup(c, provider, model).Some?
    ensures Shown(c, Lookup(c, provider, model).value)
  {
    if Direct(c, provider, model).None? {
      var entry := Resolve(c, model).value;
      var slug := c.slugs[entry.model];
      var price := Honoured(c, provider, entry, slug);
      if price == entry {
        assert c.openrouter[entry.model] == entry;
      }
    }
  }

  /** A slug always leads to the entry that carries it as its slug, whatever other names exist. */
  lemma SlugLeadsToItsEntry(c: Catalog, slug: string)
    requires Coherent(c) && slug in c.bySlug
    ensures
      var e := Resolve(c, slug);
      e.Some? && e.value == c.openrouter[c.bySlug[slug]] && c.slugs[e.value.model] == slug
  {
  }

  // ---- Precedence ----

  /** The (provider, model) pairs under which a local price is sought, the strongest first. */
  function Ladder(c: Catalog, provider: string, model: string): seq<(string, string)> {
    var dated := StripDate(model);
    [(provider, model)] + (if dated.Some? then [(provider, dated.value)] else []) + [("*", model)]
    + match Resolve(c, model)
      case None => []
      case Some(e) => if e.model !in c.slugs then [] else
        [(provider, e.model), (provider, c.slugs[e.model]), ("*", e.model), ("*", c.slugs[e.model])]
  }

  /** The price of the first rung that has one. */
  function FirstPriced(byKey: map<(string, string), PricingEntry>, rungs: seq<(string, string)>): Option<PricingEntry> {
    if rungs == [] then None else Get(byKey, rungs[0]).OrElse(FirstPriced(byKey, rungs[1..]))
  }

  lemma {:induction false} FirstPricedConcat(
      byKey: map<(string, string), PricingEntry>, a: seq<(string, string)>, b: seq<(string, string)>)
    ensures FirstPriced(byKey, a + b) == FirstPriced(byKey, a).OrElse(FirstPriced(byKey, b))
  {
    if a == [] {
      assert a + b == b;
    } else {
      assert (a + b)[1..] == a[1..] + b;
      FirstPricedConcat(byKey, a[1..], b);
    }
  }

  lemma Rung(
      byKey: map<(string, string), PricingEntry>, k: (string, string), rest: seq<(string, string)>)
    ensures FirstPriced(byKey, [k] + rest) == Get(byKey, k).OrElse(FirstPriced(byKey, rest))
  {
    assert ([k] + rest)[1..] == rest;
  }

  lemma Rungs(
      byKey: map<(string, string), PricingEntry>, a: (string, string), b: (string, string), d: (string, string),
      e: (string, string))
    ensures FirstPriced(byKey, [a, b, d, e]) ==
              Get(byKey, a).OrElse(Get(byKey, b)).OrElse(Get(byKey, d)).OrElse(Get(byKey, e))
    ensures FirstPriced(byKey, [a, b, d]) == Get(byKey, a).OrElse(Get(byKey, b)).OrElse(Get(byKey, d))
    ensures FirstPriced(byKey, [a, b]) == Get(byKey, a).OrElse(Get(byKey, b))
  {
    assert [e] == [e] + [];
    Rung(byKey, e, []);
    assert [d] == [d] + [] && [d, e] == [d] + [e];
    Rung(byKey, d, []);
    Rung(byKey, d, [e]);
    assert [b] == [b] + [] && [b, d] == [b] + [d] && [b, d, e] == [b] + [d, e];
    Rung(byKey, b, []);
    Rung(byKey, b, [d]);
    Rung(byKey, b, [d, e]);
    assert [a, b] == [a] + [b] && [a, b, d] == [a] + [b, d] && [a, b, d, e] == [a] + [b, d, e];
    Rung(byKey, a, [b]);
    Rung(byKey, a, [b, d]);
    Rung(byKey, a, [b, d, e]);
  }

  /** The lookup answers with the strongest local price for the name or for the feed entry behind it; only
      without any does the feed's own price apply. */
  lemma StrongestPriceWins(c: Catalog, provider: string, model: string)
    requires Coherent(c)
    ensures Lookup(c, provider, model) == FirstPriced(c.byKey, Ladder(c, provider, model)).OrElse(Resolve(c, model))
  {
    var dated := StripDate(model);
    var first := [(provider, model)] + (if dated.Some? then [(provider, dated.value)] else []) + [("*", model)];
    var any := ("*", model);
    if dated.Some? {
      assert first == [(provider, model), (provider, dated.value), any];
      Rungs(c.byKey, (provider, model), (provider, dated.value), any, any);
    } else {
      assert first == [(provider, model), any];
      Rungs(c.byKey, (provider, model), any, any, any);
    }
    assert FirstPriced(c.byKey, first) == Direct(c, provider, model);
    match Resolve(c, model)
    case None =>
      assert Ladder(c, provider, model) == first;
    case Some(e) =>
      var slug := c.slugs[e.model];
      var second := [(provider, e.model), (provider, slug), ("*", e.model), ("*", slug)];
      assert Ladder(c, provider, model) == first + second;
      FirstPricedConcat(c.byKey, first, second);
      Rungs(c.byKey, (provider, e.model), (provider, slug), ("*", e.model), ("*", slug));
  }

  // ---- Every name the feed knows ----

  /** Some local price answers to the name itself. */
  ghost predicate LocallyPriced(c: Catalog, provider: string, model: string) {
    || (provider, model) in c.byKey
    || ("*", model) in c.byKey
    || exists short, digits :: AllDigits(digits) && model == short + ['-'] + digits && (provider, short) in c.byKey
  }

  lemma DirectIsLocal(c: Catalog, provider: string, model: string)
    ensures Direct(c, provider, model).Some? <==> LocallyPriced(c, provider, model)
  {
    forall short, digits | AllDigits(digits) && model == short + ['-'] + digits
      ensures StripDate(model) == Some(short)
    {
      StripsExactly(model, short);
    }
    if StripDate(model).Some? {
      StripsExactly(model, StripDate(model).value);
    }
  }

  /** A name has a price if and only if a local price answers to it or it is a slug, the only slug's or id's last
      segment, or an id of the feed. */
  lemma PricedNames(c: Catalog, provider: string, model: string)
    requires Coherent(c)
    ensures Lookup(c, provider, model).Some? <==>
            || LocallyPriced(c, provider, model)
            || model in c.bySlug || model in c.bySlugModel || model in c.openrouter || model in c.byIdModel
  {
    DirectIsLocal(c, provider, model);
    LookupNeverDrops(c, provider, model);
  }

  /** The feed's id for a name: slugs come before the last segments of slugs, these before ids, and the last segments
      of ids come last. */
  ghost predicate Means(c: Catalog, model: string, id: string) {
    || (model in c.bySlug && id == c.bySlug[model])
    || (model !in c.bySlug && model in c.bySlugModel && id == c.bySlugModel[model])
    || (model !in c.bySlug && model !in c.bySlugModel && model in c.openrouter && id == model)
    || (model !in c.bySlug && model !in c.bySlugModel && model !in c.openrouter && model in c.byIdModel
        && id == c.byIdModel[model])
  }

  /** Without local prices a name costs what the feed says for the id it means. */
  lemma FeedPrice(c: Catalog, provider: string, model: string, id: string)
    requires Coherent(c) && c.byKey == map[] && Means(c, model, id)
    ensures id in c.openrouter && Lookup(c, provider, model) == Some(c.openrouter[id])
  {
  }

  /** With local prices, one for the id or the slug that a name means takes the place of the feed's: the provider's own
      before the one for all providers, and the id's before the slug's. */
  lemma LocalForFeedEntry(c: Catalog, provider: string, model: string, id: string)
    requires Coherent(c) && !LocallyPriced(c, provider, model) && Means(c, model, id)
    ensures
      var slug := c.slugs[id];
      Lookup(c, provider, model) ==
      if (provider, id) in c.byKey then Some(c.byKey[(provider, id)])
      else if (provider, slug) in c.byKey then Some(c.byKey[(provider, slug)])
      else if ("*", id) in c.byKey then Some(c.byKey[("*", id)])
      else if ("*", slug) in c.byKey then Some(c.byKey[("*", slug)])
      else Some(c.openrouter[id])
  {
    DirectIsLocal(c, provider, model);
  }

  /** A local price for exactly this provider and model always wins; one for the undated name comes next, and then one
      for all providers. */
  lemma LocalOrder(c: Catalog, provider: string, model: string, short: string, digits: string)
    ensures (provider, model) in c.byKey ==> Lookup(c, provider, model) == Some(c.byKey[(provider, model)])
    ensures && AllDigits(digits) && model == short + ['-'] + digits
            && (provider, model) !in c.byKey && (provider, short) in c.byKey ==>
              Lookup(c, provider, model) == Some(c.byKey[(provider, short)])
    ensures !LocallyPriced(c.(byKey := c.byKey - {("*", model)}), provider, model) && ("*", model) in c.byKey ==>
              Lookup(c, provider, model) == Some(c.byKey[("*", model)])
  {
    if AllDigits(digits) && model == short + ['-'] + digits {
      StripsExactly(model, short);
    }
    if StripDate(model).Some? {
      StripsExactly(model, StripDate(model).value);
    }
  }
}

/** Cost of a request from its token counts, in dollars rounded to six decimals. */
module Calculator {
  import opened Common
  import opened Catalog

  /** Token counts with absent ones read as 0. */
  datatype Usage = Usage(prompt: int, completion: int, cached: int)

  /** `f64::round`: to the nearest integer, halves away from zero. */
  function Round(v: real): int {
    if v >= 0.0 then (v + 0.5).Floor else -((0.5 - v).Floor)
  }

  function Round6(v: real): real {
    Round(v * 1000000.0) as real / 1000000.0
  }

  /** Dollars for a number of tokens at a rate per thousand; a negative number costs nothing. */
  function Part(count: int, rate: real): real {
    Max(count, 0) as real * rate / 1000.0
  }

  /** Dollars for `u` before rounding; the cached share of the prompt has its own rate. */
  function Exact(input: real, cachedInput: real, output: real, u: Usage): real {
    Part(u.prompt - u.cached, input) + Part(u.cached, cachedInput) + Part(u.completion, output)
  }

  /** Both the request-time calculator and the log store's update use this formula. */
  function CostAt(input: real, cachedInput: real, output: real, u: Usage): real {
    Round6(Exact(input, cachedInput, output, u))
  }

  function Apply(e: PricingEntry, u: Usage): real {
    CostAt(e.inputPer1k, e.cachedInputPer1k.UnwrapOr(e.inputPer1k), e.outputPer1k, u)
  }

  /** No price, no cost: an unpriced request is not guessed at. */
  function ComputeCost(c: Catalog, provider: string, model: string, u: Usage): Option<real> {
    match Lookup(c, provider, model)
    case None => None
    case Some(e) => Some(Apply(e, u))
  }

  /** Rounding moves a cost by at most half a millionth and leaves rounded costs alone. */
  lemma Round6Facts(v: real)
    ensures -0.0000005 <= Round6(v) - v <= 0.0000005
    ensures Round6(Round6(v)) == Round6(v)
    ensures v >= 0.0 ==> Round6(v) >= 0.0
  {
    var n := Round(v * 1000000.0);
    assert Round6(v) * 1000000.0 == n as real;
    assert Round(n as real) == n;
  }

  /** Halves go away from zero. */
  lemma HalvesAway(n: int)
    requires n >= 0
    ensures Round(n as real + 0.5) == n + 1 && Round(-(n as real) - 0.5) == -n - 1
    ensures Round(n as real) == n && Round(-(n as real)) == -n
  {
  }

  // ---- What each kind of token costs ----

  function CachedRate(e: PricingEntry): real {
    match e.cachedInputPer1k
    case Some(rate) => rate
    case None => e.inputPer1k
  }

  lemma PartFacts(rate: real)
    ensures Part(0, rate) == 0.0
  {
  }

  lemma NegativePart(count: int, rate: real)
    requires count <= 0
    ensures Part(count, rate) == 0.0
  {
  }

  lemma PartOfThousands(n: nat, rate: real)
    ensures Part(1000 * n, rate) == n as real * rate
  {
    assert (1000 * n) as real == 1000.0 * n as real;
  }

  lemma PartAdds(a: nat, b: nat, rate: real)
    ensures Part(a + b, rate) == Part(a, rate) + Part(b, rate)
  {
    assert (a + b) as real * rate == a as real * rate + b as real * rate;
  }

  lemma ExactParts(input: real, cachedInput: real, output: real, n: int)
    ensures Exact(input, cachedInput, output, Usage(0, n, 0)) == Part(n, output)
    ensures Exact(input, cachedInput, output, Usage(n, 0, 0)) == Part(n, input)
    ensures Exact(input, cachedInput, output, Usage(n, 0, n)) == Part(n, cachedInput)
  {
    PartFacts(input);
    PartFacts(cachedInput);
    PartFacts(output);
    assert n - n == 0 && n - 0 == n;
  }

  lemma ComputedIs(c: Catalog, provider: string, model: string, e: PricingEntry, u: Usage)
    requires Lookup(c, provider, model) == Some(e)
    ensures ComputeCost(c, provider, model, u) == Some(Round6(Exact(e.inputPer1k, CachedRate(e), e.outputPer1k, u)))
  {
  }

  /** A thousand tokens cost their rate: completion tokens the output rate and uncached prompt tokens the input rate. */
  lemma ThousandTokens(c: Catalog, provider: string, model: string, e: PricingEntry, n: nat)
    requires Lookup(c, provider, model) == Some(e)
    ensures ComputeCost(c, provider, model, Usage(0, 1000 * n, 0)) == Some(Round6(n as real * e.outputPer1k))
    ensures ComputeCost(c, provider, model, Usage(1000 * n, 0, 0)) == Some(Round6(n as real * e.inputPer1k))
  {
    var m: int := 1000 * n;
    ExactParts(e.inputPer1k, CachedRate(e), e.outputPer1k, m);
    PartOfThousands(n, e.outputPer1k);
    PartOfThousands(n, e.inputPer1k);
    ComputedIs(c, provider, model, e, Usage(0, m, 0));
    ComputedIs(c, provider, model, e, Usage(m, 0, 0));
  }

  /** Cached prompt tokens cost the cached rate, which is the input rate when the price has none. */
  lemma ThousandCached(c: Catalog, provider: string, model: string, e: PricingEntry, n: nat, rate: real)
    requires Lookup(c, provider, model) == Some(e)
    requires e.cachedInputPer1k == Some(rate) || (e.cachedInputPer1k == None && e.inputPer1k == rate)
    ensures ComputeCost(c, provider, model, Usage(1000 * n, 0, 1000 * n)) == Some(Round6(n as real * rate))
  {
    var m: int := 1000 * n;
    assert CachedRate(e) == rate;
    ExactParts(e.inputPer1k, rate, e.outputPer1k, m);
    PartOfThousands(n, rate);
    ComputedIs(c, provider, model, e, Usage(m, 0, m));
  }

  /** Without a price there is no cost. */
  lemma UnpricedHasNoCost(c: Catalog, provider: string, model: string, u: Usage)
    ensures ComputeCost(c, provider, model, u).None? <==> Lookup(c, provider, model).None?
  {
  }

  lemma CostIsClose(input: real, cachedInput: real, output: real, u: Usage)
    ensures -0.0000005 <= CostAt(input, cachedInput, output, u) - Exact(input, cachedInput, output, u) <= 0.0000005
  {
    Round6Facts(Exact(input, cachedInput, output, u));
  }

  /** A usage costs the sum of its uncached prompt, its cached prompt and its completion, to within the rounding of
      four costs. */
  lemma CostIsSum(input: real, cachedInput: real, output: real, u: Usage)
    requires 0 <= u.cached <= u.prompt
    ensures
      var parts := CostAt(input, cachedInput, output, Usage(u.prompt - u.cached, 0, 0))
                   + CostAt(input, cachedInput, output, Usage(u.cached, 0, u.cached))
                   + CostAt(input, cachedInput, output, Usage(0, u.completion, 0));
      -0.000002 <= CostAt(input, cachedInput, output, u) - parts <= 0.000002
  {
    CostIsClose(input, cachedInput, output, u);
    CostIsClose(input, cachedInput, output, Usage(u.prompt - u.cached, 0, 0));
    CostIsClose(input, cachedInput, output, Usage(u.cached, 0, u.cached));
    CostIsClose(input, cachedInput, output, Usage(0, u.completion, 0));
    ExactParts(input, cachedInput, output, u.prompt - u.cached);
    ExactParts(input, cachedInput, output, u.cached);
    ExactParts(input, cachedInput, output, u.completion);
  }

  /** Each rate matters only for its own tokens. */
  lemma RatesAreSeparate(input: real, cachedInput: real, output: real, other: real, u: Usage)
    ensures u.completion <= 0 ==> CostAt(input, cachedInput, output, u) == CostAt(input, cachedInput, other, u)
    ensures u.cached <= 0 ==> CostAt(input, cachedInput, output, u) == CostAt(input, other, output, u)
    ensures u.prompt <= u.cached ==> CostAt(input, cachedInput, output, u) == CostAt(other, cachedInput, output, u)
  {
    if u.completion <= 0 {
      NegativePart(u.completion, output);
      NegativePart(u.completion, other);
    }
    if u.cached <= 0 {
      NegativePart(u.cached, cachedInput);
      NegativePart(u.cached, other);
    }
    if u.prompt <= u.cached {
      NegativePart(u.prompt - u.cached, input);
      NegativePart(u.prompt - u.cached, other);
    }
  }

  /** `more` further cached tokens within a prompt change its cost by the difference of the two rates, to within the
      rounding of two costs. */
  lemma CachingSaves(input: real, cachedInput: real, output: real, u: Usage, more: nat)
    requires 0 <= u.cached && u.cached + more <= u.prompt
    ensures
      var after := CostAt(input, cachedInput, output, u.(cached := u.cached + more));
      var change := after - CostAt(input, cachedInput, output, u);
      -0.000001 <= change - (Part(more, cachedInput) - Part(more, input)) <= 0.000001
  {
    CostIsClose(input, cachedInput, output, u);
    CostIsClose(input, cachedInput, output, u.(cached := u.cached + more));
    PartAdds(u.prompt - (u.cached + more), more, input);
    PartAdds(u.cached, more, cachedInput);
  }

  /** A negative completion count adds nothing, and more cached than prompt tokens leave no uncached ones. But a
      negative cached count is charged as that many more uncached prompt tokens. */
  lemma NegativeCounts(input: real, cachedInput: real, output: real, u: Usage)
    ensures u.completion < 0 ==>
              CostAt(input, cachedInput, output, u) == CostAt(input, cachedInput, output, u.(completion := 0))
    ensures u.prompt < u.cached ==>
              CostAt(input, cachedInput, output, u) == CostAt(input, cachedInput, output, u.(prompt := u.cached))
    ensures u.cached < 0 ==>
              var more := Usage(u.prompt - u.cached, u.completion, 0);
              CostAt(input, cachedInput, output, u) == CostAt(input, cachedInput, output, more)
  {
    if u.completion < 0 {
      NegativePart(u.completion, output);
      PartFacts(output);
    }
    if u.prompt < u.cached {
      NegativePart(u.prompt - u.cached, input);
      NegativePart(0, input);
    }
    if u.cached < 0 {
      NegativePart(u.cached, cachedInput);
      PartFacts(cachedInput);
    }
  }
}

/** The price table and the cost of a translation. Prices are US dollars per
    million tokens, looked up by model name for input tokens and by the model
    name followed by `-output` for output tokens; a name the table lacks costs
    the default rate. */
module Pricing {

  /** The rate for a model the table does not list. */
  const DefaultRate: real := 0.00002

  /** The price table when no environment override is set. */
  const DefaultPrices: map<string, real> := map[
    "gpt-4o-mini" := 0.00015,
    "gpt-4o" := 0.00250,
    "o1-mini" := 0.00300,
    "gpt-3.5-turbo" := 0.00300,
    "gpt-4o-mini-output" := 0.000075,
    "gpt-4o-output" := 0.00125,
    "o1-mini-output" := 0.01200,
    "gpt-3.5-turbo-output" := 0.00600
  ]

  /** Every price in the table is at least zero. */
  predicate NonNegativePrices(prices: map<string, real>)
  {
    forall key :: key in prices ==> prices[key] >= 0.0
  }

  /** `pricing_config.get(key, 0.00002) / 1000000`: the price of one token. */
  function TokenPrice(prices: map<string, real>, key: string): (p: real)
    ensures key in prices ==> p * 1000000.0 == prices[key]
    ensures key !in prices ==> p * 1000000.0 == DefaultRate
    ensures NonNegativePrices(prices) ==> p >= 0.0
  {
    (if key in prices then prices[key] else DefaultRate) / 1000000.0
  }

  /** The key output tokens are priced under. */
  function OutputKey(model: string): (key: string)
    ensures |key| == |model| + 7 && key[..|model|] == model
    ensures key[|model|..] == "-output"
  {
    model + "-output"
  }

  /** `total_input_tokens * cost_per_input_token + total_output_tokens *
      cost_per_output_token`. */
  function TotalCost(prices: map<string, real>, model: string, inputTokens: nat, outputTokens: nat): real
  {
    inputTokens as real * TokenPrice(prices, model) + outputTokens as real * TokenPrice(prices, OutputKey(model))
  }

  /** With prices at least zero, no translation has a negative cost. */
  lemma CostNonNegative(prices: map<string, real>, model: string, inputTokens: nat, outputTokens: nat)
    requires NonNegativePrices(prices)
    ensures TotalCost(prices, model, inputTokens, outputTokens) >= 0.0
  {
    var pin, pout := TokenPrice(prices, model), TokenPrice(prices, OutputKey(model));
    assert inputTokens as real * pin >= 0.0;
    assert outputTokens as real * pout >= 0.0;
  }

  /** No tokens cost nothing, whatever the prices. */
  lemma CostOfNothing(prices: map<string, real>, model: string)
    ensures TotalCost(prices, model, 0, 0) == 0.0
  { }

  /** With prices at least zero, more tokens of either kind never cost less. */
  lemma CostMonotone(prices: map<string, real>, model: string, in1: nat, out1: nat, in2: nat, out2: nat)
    requires NonNegativePrices(prices)
    requires in1 <= in2 && out1 <= out2
    ensures TotalCost(prices, model, in1, out1) <= TotalCost(prices, model, in2, out2)
  {
    var pin, pout := TokenPrice(prices, model), TokenPrice(prices, OutputKey(model));
    assert (in2 - in1) as real * pin >= 0.0;
    assert (out2 - out1) as real * pout >= 0.0;
  }

  /** The default table prices every model and output key at zero or more. */
  lemma DefaultPricesNonNegative()
    ensures NonNegativePrices(DefaultPrices)
  { }

  /** The default model `gpt-4` is not in the default table, so both of its
      token kinds cost the default rate: a million tokens of each cost
      0.00004. */
  lemma DefaultModelCost()
    ensures "gpt-4" !in DefaultPrices && "gpt-4-output" !in DefaultPrices
    ensures TotalCost(DefaultPrices, "gpt-4", 1000000, 1000000) == 0.00004
  {
    assert OutputKey("gpt-4") == "gpt-4-output";
  }
}

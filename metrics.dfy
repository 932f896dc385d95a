/**
 * The metrics tracker: six cumulative counters of the live session,
 * advanced once per completed model message and zeroed by a reset.
 */
module Metrics {
  import opened Options
  import opened Messages

  /** The `session` hash: token, tool-call and message counters and the cost estimate. */
  datatype Counters = Counters(
    tokensIn: nat, tokensOut: nat, tokensCached: nat,
    toolCalls: nat, messages: nat, cost: real)

  /** Per-million-token prices of one model, from the library's model registry. */
  datatype Pricing = Pricing(inputPerMillion: real, outputPerMillion: real)

  predicate PricingOk(p: Option<Pricing>) {
    p.Some? ==> p.value.inputPerMillion >= 0.0 && p.value.outputPerMillion >= 0.0
  }

  /** What `reset_session` installs. */
  const Zero := Counters(0, 0, 0, 0, 0, 0.0)

  /**
   * `estimate_cost`: nothing when the model is unknown to the registry,
   * otherwise input and output tokens priced per million (exact reals).
   */
  function EstimateCost(pricing: Option<Pricing>, input: nat, output: nat): (c: real)
    requires PricingOk(pricing)
    ensures c >= 0.0
    ensures pricing.None? || (input == 0 && output == 0) ==> c == 0.0
  {
    match pricing
    case None => 0.0
    case Some(p) =>
      (input as real) * p.inputPerMillion / 1000000.0 + (output as real) * p.outputPerMillion / 1000000.0
  }

  /** `track_metrics`: a nil message changes nothing; any other advances every counter. */
  function Track(c: Counters, msg: Option<Message>, pricing: Option<Pricing>): (r: Counters)
    requires PricingOk(pricing)
    ensures msg.None? ==> r == c
    ensures msg.Some? ==> r.messages == c.messages + 1
    ensures msg.Some? ==> (r.toolCalls == c.toolCalls + 1 <==> msg.value.IsToolCall())
    ensures r.toolCalls <= c.toolCalls + 1 && r.cost >= c.cost
    ensures r.tokensIn >= c.tokensIn && r.tokensOut >= c.tokensOut && r.tokensCached >= c.tokensCached
  {
    match msg
    case None => c
    case Some(m) =>
      Counters(
        c.tokensIn + m.usage.input,
        c.tokensOut + m.usage.output,
        c.tokensCached + m.usage.cached,
        c.toolCalls + (if m.IsToolCall() then 1 else 0),
        c.messages + 1,
        c.cost + EstimateCost(pricing, m.usage.input, m.usage.output))
  }

  /** Counters after one `track_metrics` call per message, in order. */
  function TrackAll(c: Counters, ms: seq<Message>, pricing: Option<Pricing>): Counters
    requires PricingOk(pricing)
  {
    if ms == [] then c
    else Track(TrackAll(c, ms[..|ms| - 1], pricing), Some(ms[|ms| - 1]), pricing)
  }

  // Reference totals over a sequence of messages, defined front to back.

  function SumIn(ms: seq<Message>): nat { if ms == [] then 0 else ms[0].usage.input + SumIn(ms[1..]) }
  function SumOut(ms: seq<Message>): nat { if ms == [] then 0 else ms[0].usage.output + SumOut(ms[1..]) }
  function SumCached(ms: seq<Message>): nat { if ms == [] then 0 else ms[0].usage.cached + SumCached(ms[1..]) }
  function CountToolCalls(ms: seq<Message>): nat {
    if ms == [] then 0 else (if ms[0].IsToolCall() then 1 else 0) + CountToolCalls(ms[1..])
  }
  function SumCost(ms: seq<Message>, pricing: Option<Pricing>): real
    requires PricingOk(pricing)
  {
    if ms == [] then 0.0 else EstimateCost(pricing, ms[0].usage.input, ms[0].usage.output) + SumCost(ms[1..], pricing)
  }

  /** The totals of `ms` followed by one message `m`. */
  lemma {:induction false} SumsSnoc(ms: seq<Message>, m: Message, pricing: Option<Pricing>)
    requires PricingOk(pricing)
    ensures SumIn(ms + [m]) == SumIn(ms) + m.usage.input
    ensures SumOut(ms + [m]) == SumOut(ms) + m.usage.output
    ensures SumCached(ms + [m]) == SumCached(ms) + m.usage.cached
    ensures CountToolCalls(ms + [m]) == CountToolCalls(ms) + (if m.IsToolCall() then 1 else 0)
    ensures SumCost(ms + [m], pricing) == SumCost(ms, pricing) + EstimateCost(pricing, m.usage.input, m.usage.output)
    decreases |ms|
  {
    if ms == [] {
      assert [] + [m] == [m];
      assert [m][1..] == [];
    } else {
      assert (ms + [m])[1..] == ms[1..] + [m];
      SumsSnoc(ms[1..], m, pricing);
    }
  }

  /**
   * Over any sequence of turns the counters grow by exactly the sums of the
   * reported usage, the number of tool-calling messages and the number of
   * messages.
   */
  lemma {:induction false} TrackAllIsSum(c: Counters, ms: seq<Message>, pricing: Option<Pricing>)
    requires PricingOk(pricing)
    ensures TrackAll(c, ms, pricing) == Counters(
      c.tokensIn + SumIn(ms), c.tokensOut + SumOut(ms), c.tokensCached + SumCached(ms),
      c.toolCalls + CountToolCalls(ms), c.messages + |ms|, c.cost + SumCost(ms, pricing))
    decreases |ms|
  {
    if ms != [] {
      var init, last := ms[..|ms| - 1], ms[|ms| - 1];
      assert init + [last] == ms;
      TrackAllIsSum(c, init, pricing);
      SumsSnoc(init, last, pricing);
    }
  }

  /** Two turns of 10/20 and 5/8 tokens leave 15 in, 28 out and 2 messages. */
  lemma TwoTurnsAccumulate(first: Message, second: Message)
    requires first.usage == Usage(10, 20, 0) && second.usage == Usage(5, 8, 0)
    ensures var r := TrackAll(Zero, [first, second], None);
      r.tokensIn == 15 && r.tokensOut == 28 && r.messages == 2
  {
    TrackAllIsSum(Zero, [first, second], None);
    assert [first, second][1..] == [second];
    assert [first, second][1..][1..] == [];
    assert SumIn([second]) == 5 && SumOut([second]) == 8;
  }
}

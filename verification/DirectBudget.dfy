/**
  The price bound reserved for one paid model attempt, and the cost settled for it
  afterwards. Amounts are integer nano-USD. A digest is modelled by the value it
  digests, so two policies have the same digest exactly when they are equal.
 */
module DirectBudget {
  import opened Wrappers

  const MAX_INPUT_TOKENS: nat := 1_050_000
  const MAX_OUTPUT_TOKENS: nat := 128_000
  const LONG_CONTEXT_TOKENS: nat := 272_000
  const MAX_ALLOCATION: nat := 150_000_000_000
  const PRICING_VERSION := "openai-standard-text-2026-10-29"
  const SETTLEMENT_MARGIN_SECONDS := 30

  // ---------------------------------------------------------------- policies

  datatype Policy =
    | Continuous(organization: string, project: string, profile: string, pricing: string, authorization: string)
    | Finite(cycle: string, organization: string, project: string, profile: string, pricing: string,
             authorization: string, validFrom: nat, expires: nat, allocation: nat,
             verifiedAvailable: nat, pricingVerifiedUntil: nat)

  /** The identity of the counter item that a finite policy's attempts share. */
  datatype CounterKey = CounterKey(cycle: string, organization: string, project: string)

  /** The checks of `load_policy` that decide whether an attempt may start. */
  predicate Authorizes(policy: Policy, now: nat, requestSeconds: nat, profile: string) {
    && policy.authorization == "approved"
    && policy.pricing == PRICING_VERSION
    && policy.profile == profile
    && (policy.Finite? ==>
          && 0 < policy.validFrom && 0 < policy.expires && 0 < policy.pricingVerifiedUntil
          && 0 < policy.allocation <= MAX_ALLOCATION
          && policy.allocation <= policy.verifiedAvailable
          && policy.validFrom <= now
          && now + requestSeconds + SETTLEMENT_MARGIN_SECONDS < policy.expires
          && now + requestSeconds + SETTLEMENT_MARGIN_SECONDS < policy.pricingVerifiedUntil)
  }

  // ------------------------------------------------------------ reservations

  datatype CacheMode = Off | Reconcile | PublicStatic {
    predicate Writes() {
      this != Off
    }
  }

  datatype Price = Price(input: nat, cached: nat, write30m: nat, write12h: nat, output: nat)

  datatype BudgetState = Reserved | Settled(actual: nat)

  datatype Budget = Budget(
    policy: Policy, price: Price, maxInput: nat, maxOutput: nat,
    reserved: nat, mode: CacheMode, ttl30m: bool, state: BudgetState)
  {
    function Counter(): CounterKey
      requires policy.Finite?
    {
      CounterKey(policy.cycle, policy.organization, policy.project)
    }
  }

  /** The shipped tariff: nano-USD per token. */
  function PriceOf(model: string): Option<Price> {
    if model == "gpt-6-luna" then Some(Price(100, 10, 125, 250, 500))
    else if model == "gpt-6.1-terra" then Some(Price(1000, 50, 1250, 2500, 5000))
    else None
  }

  /** `reservation`: the whole input window at the long-context rate, whatever the request holds. */
  function Reserve(policy: Policy, model: string, maxOutput: int, mode: CacheMode): (r: Option<Budget>)
    ensures r.Some? ==> r.value.policy == policy && r.value.state == Reserved
  {
    var price := PriceOf(model);
    if price.None? || !(1 <= maxOutput <= MAX_OUTPUT_TOKENS) then None
    else Some(Quoted(policy, price.value, maxOutput, mode))
  }

  function Quoted(policy: Policy, price: Price, maxOutput: nat, mode: CacheMode): Budget {
    Budget(policy, price, MAX_INPUT_TOKENS, maxOutput, Bound(price, maxOutput, mode), mode, mode.Writes(), Reserved)
  }

  /** The most one attempt may cost under a tariff, rounded down. */
  function Bound(price: Price, maxOutput: nat, mode: CacheMode): nat {
    Times(MAX_INPUT_TOKENS, InputRate(price, mode)) * 2 + Times(maxOutput, price.output) * 3 / 2
  }

  function InputRate(price: Price, mode: CacheMode): nat {
    if mode.Writes() then price.write30m else price.input
  }

  function Times(a: nat, b: nat): nat {
    a * b
  }

  // ------------------------------------------------------- reported partitions

  /** One raw leaf of a provider usage record, before any coercion. */
  datatype Raw = Missing | Boolean(b: bool) | Integer(n: int) | Decimal(d: real) | NonFinite | Other

  function Integral(raw: Raw): Option<nat> {
    match raw
    case Integer(n) => if n >= 0 then Some(n) else None
    case Decimal(d) =>
      if d >= 0.0 && d == d.Floor as real then
        assert d.Floor >= 0;
        Some(d.Floor)
      else None
    case _ => None
  }

  datatype TtlDetails = NoTtl | TtlNotMapping | Ttl(entries: map<string, Raw>)

  datatype InputDetails = InputDetails(cached: Raw, written: Raw, ttl: TtlDetails)

  datatype Usage =
    | NotMapping
    | Usage(input: Raw, output: Raw, total: Raw, prompt: Raw, completion: Raw,
            inputDetails: Option<InputDetails>, reasoning: Option<Raw>)

  datatype Parts = Parts(input: nat, output: nat, cached: nat, written: nat)

  const TTL_30M := "ttl_30m_tokens"
  const TTL_12H := "ttl_12h_tokens"

  /** `cache_usage_parts`: the partition of the input, or nothing when the report contradicts itself. */
  function CacheUsageParts(usage: Usage, mode: CacheMode): (r: Option<Parts>)
    ensures r.Some? ==> r.value.cached + r.value.written <= r.value.input
    ensures r.Some? ==>
              && usage.Usage? && usage.inputDetails.Some?
              && Integral(usage.input) == Some(r.value.input) && Integral(usage.output) == Some(r.value.output)
              && Integral(usage.total) == Some(r.value.input + r.value.output)
              && Integral(usage.inputDetails.value.cached) == Some(r.value.cached)
              && Integral(usage.inputDetails.value.written) == Some(r.value.written)
    ensures r.Some? && mode == Off ==> r.value.cached == r.value.written == 0
  {
    if usage.NotMapping? || usage.inputDetails.None? || usage.reasoning.None? then None
    else
      var details := usage.inputDetails.value;
      var inp, out, total := Integral(usage.input), Integral(usage.output), Integral(usage.total);
      var cached, written := Integral(details.cached), Integral(details.written);
      var reasoning := Integral(usage.reasoning.value);
      if inp.None? || out.None? || total.None? || cached.None? || written.None? || reasoning.None? then None
      else if total.value != inp.value + out.value || reasoning.value > out.value
              || cached.value + written.value > inp.value then None
      else if mode == Off then
        if cached.value != 0 || written.value != 0 || !ZeroTtl(details.ttl) then None
        else Some(Parts(inp.value, out.value, 0, 0))
      else if !details.ttl.Ttl? || details.ttl.entries.Keys != {TTL_30M, TTL_12H} then None
      else
        var short, long := Integral(details.ttl.entries[TTL_30M]), Integral(details.ttl.entries[TTL_12H]);
        if short.None? || long != Some(0) || short.value != written.value then None
        else Some(Parts(inp.value, out.value, cached.value, short.value))
  }

  predicate ZeroTtl(ttl: TtlDetails) {
    match ttl
    case NoTtl => true
    case TtlNotMapping => false
    case Ttl(entries) => forall k :: k in entries ==> Integral(entries[k]) == Some(0)
  }

  // --------------------------------------------------------------- settlement

  /** What a terminal callback reports about its own attempt. */
  datatype Outcome = Outcome(
    usageReported: bool, serviceTier: string, responseModel: string, billedModel: string, usage: Usage)

  /** The guards of `actual_cost` that precede the arithmetic. */
  function AcceptedParts(outcome: Outcome, original: Budget): Option<Parts> {
    if !outcome.usageReported || outcome.serviceTier != "default" then None
    else if outcome.responseModel != outcome.billedModel then None
    else if original.mode.Writes() && !original.ttl30m then None
    else
      var parts := CacheUsageParts(outcome.usage, original.mode);
      if parts.None? then None
      else if parts.value.input > original.maxInput || parts.value.output > original.maxOutput then None
      else if Integral(outcome.usage.prompt) != Some(parts.value.input) then None
      else if Integral(outcome.usage.completion) != Some(parts.value.output) then None
      else parts
  }

  function InputCost(parts: Parts, price: Price): nat
    requires parts.cached + parts.written <= parts.input
  {
    Times(parts.input - parts.cached - parts.written, price.input)
    + Times(parts.cached, price.cached) + Times(parts.written, price.write30m)
  }

  /** Rounding up once, after doubling, keeps the 1.5 output factor exact. */
  function RoundedCost(input: nat, output: nat, long: bool): nat {
    if long then (input * 4 + output * 3 + 1) / 2 else (input * 2 + output * 2 + 1) / 2
  }

  /** The rounded-up cost of one partition; the whole input selects the long-context rates. */
  function CostOf(parts: Parts, price: Price): nat
    requires parts.cached + parts.written <= parts.input
  {
    RoundedCost(InputCost(parts, price), Times(parts.output, price.output), parts.input > LONG_CONTEXT_TOKENS)
  }

  /** `actual_cost`: priced only by the original fence, and never above its reservation. */
  function ActualCost(outcome: Outcome, original: Budget): (r: Option<nat>)
    ensures r.Some? ==> r.value <= original.reserved
  {
    var parts := AcceptedParts(outcome, original);
    if parts.None? then None
    else
      assert parts.value.cached + parts.value.written <= parts.value.input;
      var cost := CostOf(parts.value, original.price);
      if cost <= original.reserved then Some(cost) else None
  }

  // ------------------------------------------------------------------- results

  /** The tariff as the price list states it: long inputs cost double, long outputs half as much again. */
  function ListedPrice(parts: Parts, price: Price): real
    requires parts.cached + parts.written <= parts.input
  {
    var uncached := parts.input - parts.cached - parts.written;
    var input := uncached as real * price.input as real
                 + parts.cached as real * price.cached as real
                 + parts.written as real * price.write30m as real;
    var output := parts.output as real * price.output as real;
    if parts.input > LONG_CONTEXT_TOKENS then input * 2.0 + output * 1.5 else input + output
  }

  lemma RealProduct(a: nat, b: nat)
    ensures Times(a, b) as real == a as real * b as real
  {
  }

  /** The settled integer is the listed price rounded up, never down and never by a whole unit. */
  lemma CostRoundsUp(parts: Parts, price: Price)
    requires parts.cached + parts.written <= parts.input
    ensures ListedPrice(parts, price) <= CostOf(parts, price) as real < ListedPrice(parts, price) + 1.0
  {
    RealProduct(parts.input - parts.cached - parts.written, price.input);
    RealProduct(parts.cached, price.cached);
    RealProduct(parts.written, price.write30m);
    RealProduct(parts.output, price.output);
    RoundsUp(InputCost(parts, price), Times(parts.output, price.output), parts.input > LONG_CONTEXT_TOKENS);
  }

  lemma RoundsUp(input: nat, output: nat, long: bool)
    ensures var listed := if long then input as real * 2.0 + output as real * 1.5 else (input + output) as real;
            listed <= RoundedCost(input, output, long) as real < listed + 1.0
  {
    var numerator := if long then input * 4 + output * 3 else input * 2 + output * 2;
    var half := (numerator + 1) / 2;
    assert 2 * half == numerator || 2 * half == numerator + 1;
    assert (2 * half) as real == 2.0 * half as real;
  }

  /**
    The reservation of the shipped tariff dominates every settlement: once the report passes the
    guards, the final comparison in `actual_cost` never turns it away.
   */
  lemma ReservationDominates(outcome: Outcome, policy: Policy, model: string, maxOutput: int, mode: CacheMode)
    requires Reserve(policy, model, maxOutput, mode).Some?
    ensures var original := Reserve(policy, model, maxOutput, mode).value;
            ActualCost(outcome, original).Some? <==> AcceptedParts(outcome, original).Some?
  {
    var original := Reserve(policy, model, maxOutput, mode).value;
    EvenRate(maxOutput, original.price.output);
    if AcceptedParts(outcome, original).Some? {
      AcceptedIsSettled(outcome, policy, original.price, maxOutput, mode);
    }
  }

  /** A cache read is never dearer than plain input, and a cache write never cheaper. */
  predicate Discounted(price: Price) {
    price.cached <= price.input <= price.write30m
  }

  /** The partitions that the guards let through. */
  predicate WithinCaps(parts: Parts, maxOutput: nat, mode: CacheMode) {
    && parts.cached + parts.written <= parts.input <= MAX_INPUT_TOKENS && parts.output <= maxOutput
    && (mode == Off ==> parts.cached == parts.written == 0)
  }

  lemma CostWithinReservation(parts: Parts, price: Price, maxOutput: nat, mode: CacheMode)
    requires Discounted(price) && WithinCaps(parts, maxOutput, mode) && Times(maxOutput, price.output) % 2 == 0
    ensures CostOf(parts, price) <= Bound(price, maxOutput, mode)
  {
    var rate := InputRate(price, mode);
    InputWithinWindow(parts, price, rate);
    TimesMonotone(parts.output, maxOutput, price.output);
    RoundingWithin(InputCost(parts, price), Times(MAX_INPUT_TOKENS, rate),
                   Times(parts.output, price.output), Times(maxOutput, price.output),
                   parts.input > LONG_CONTEXT_TOKENS);
  }

  lemma AcceptedIsSettled(outcome: Outcome, policy: Policy, price: Price, maxOutput: nat, mode: CacheMode)
    requires Discounted(price) && Times(maxOutput, price.output) % 2 == 0
    requires AcceptedParts(outcome, Quoted(policy, price, maxOutput, mode)).Some?
    ensures ActualCost(outcome, Quoted(policy, price, maxOutput, mode)).Some?
  {
    CostWithinReservation(AcceptedParts(outcome, Quoted(policy, price, maxOutput, mode)).value, price, maxOutput, mode);
  }

  /** Every report that passes the guards is settled. */
  ghost predicate Dominates(original: Budget) {
    forall outcome :: AcceptedParts(outcome, original).Some? ==> ActualCost(outcome, original).Some?
  }

  /**
    Dominance is a fact about the shipped tariff, whose output rates are even. For any tariff it holds
    exactly when the price of the output cap is even; otherwise the full-window report is accepted by
    every guard and then refused, because its cost rounds up past the rounded-down reservation.
   */
  lemma DominatesExactly(policy: Policy, price: Price, maxOutput: nat, mode: CacheMode)
    requires Discounted(price)
    ensures Dominates(Quoted(policy, price, maxOutput, mode)) <==> Times(maxOutput, price.output) % 2 == 0
  {
    hide AcceptedParts, ActualCost;
    var original := Quoted(policy, price, maxOutput, mode);
    if Times(maxOutput, price.output) % 2 == 0 {
      forall outcome | AcceptedParts(outcome, original).Some?
        ensures ActualCost(outcome, original).Some?
      {
        AcceptedIsSettled(outcome, policy, price, maxOutput, mode);
      }
    } else {
      FullReportAccepted(original, maxOutput, mode);
      OddFullWindowIsRefused(policy, price, maxOutput, mode);
    }
  }

  lemma OddFullWindowIsRefused(policy: Policy, price: Price, maxOutput: nat, mode: CacheMode)
    requires Times(maxOutput, price.output) % 2 == 1
    ensures ActualCost(FullReport(maxOutput, mode), Quoted(policy, price, maxOutput, mode)).None?
  {
    hide AcceptedParts;
    FullReportAccepted(Quoted(policy, price, maxOutput, mode), maxOutput, mode);
    FullWindowInput(maxOutput, mode, price);
    OddRounding(Times(MAX_INPUT_TOKENS, InputRate(price, mode)), Times(maxOutput, price.output));
  }

  lemma OddRounding(input: nat, output: nat)
    requires output % 2 == 1
    ensures RoundedCost(input, output, true) == input * 2 + output * 3 / 2 + 1
  {
  }

  lemma InputWithinWindow(parts: Parts, price: Price, rate: nat)
    requires parts.cached + parts.written <= parts.input <= MAX_INPUT_TOKENS
    requires price.input <= rate
    requires parts.cached == 0 || price.cached <= rate
    requires parts.written == 0 || price.write30m <= rate
    ensures InputCost(parts, price) <= Times(MAX_INPUT_TOKENS, rate)
  {
    var uncached := parts.input - parts.cached - parts.written;
    RateMonotone(uncached, price.input, rate);
    if parts.cached != 0 { RateMonotone(parts.cached, price.cached, rate); }
    if parts.written != 0 { RateMonotone(parts.written, price.write30m, rate); }
    assert Times(uncached, rate) + Times(parts.cached, rate) + Times(parts.written, rate) == Times(parts.input, rate);
    TimesMonotone(parts.input, MAX_INPUT_TOKENS, rate);
  }

  lemma TimesMonotone(a: nat, b: nat, rate: nat)
    requires a <= b
    ensures Times(a, rate) <= Times(b, rate)
  {
  }

  lemma RateMonotone(a: nat, low: nat, high: nat)
    requires low <= high
    ensures Times(a, low) <= Times(a, high)
  {
  }

  lemma EvenRate(a: nat, rate: nat)
    requires rate % 2 == 0
    ensures Times(a, rate) % 2 == 0
  {
    assert a * rate == 2 * (a * (rate / 2));
  }

  lemma RoundingWithin(input: nat, maxInput: nat, output: nat, maxOutput: nat, long: bool)
    requires input <= maxInput && output <= maxOutput && maxOutput % 2 == 0
    ensures RoundedCost(input, output, long) <= maxInput * 2 + maxOutput * 3 / 2
  {
    var half := maxOutput / 2;
    assert maxOutput * 3 / 2 == half * 3;
  }

  /** The report of a full window at full output, all of it written to the cache where that is on. */
  function FullReport(maxOutput: nat, mode: CacheMode): Outcome {
    var full := FullWindow(maxOutput, mode);
    var ttl := if mode.Writes() then Ttl(map[TTL_30M := Integer(full.written), TTL_12H := Integer(0)]) else NoTtl;
    Outcome(true, "default", "", "",
            Usage(Integer(full.input), Integer(full.output), Integer(full.input + full.output), Integer(full.input),
                  Integer(full.output), Some(InputDetails(Integer(0), Integer(full.written), ttl)), Some(Integer(0))))
  }

  lemma FullReportAccepted(original: Budget, maxOutput: nat, mode: CacheMode)
    requires original.mode == mode && original.ttl30m == mode.Writes()
    requires original.maxInput == MAX_INPUT_TOKENS && original.maxOutput == maxOutput
    ensures AcceptedParts(FullReport(maxOutput, mode), original) == Some(FullWindow(maxOutput, mode))
  {
  }

  /** The bound is tight: the report of the full window at full output settles for exactly the reservation. */
  lemma ReservationIsAttained(policy: Policy, model: string, maxOutput: int, mode: CacheMode)
    requires Reserve(policy, model, maxOutput, mode).Some?
    ensures var original := Reserve(policy, model, maxOutput, mode).value;
            && AcceptedParts(FullReport(maxOutput, mode), original) == Some(FullWindow(maxOutput, mode))
            && ActualCost(FullReport(maxOutput, mode), original) == Some(original.reserved)
  {
    hide AcceptedParts;
    FullReportAccepted(Reserve(policy, model, maxOutput, mode).value, maxOutput, mode);
    FullWindowCost(model, maxOutput, mode);
  }

  function FullWindow(maxOutput: nat, mode: CacheMode): Parts {
    Parts(MAX_INPUT_TOKENS, maxOutput, 0, if mode.Writes() then MAX_INPUT_TOKENS else 0)
  }

  lemma FullWindowCost(model: string, maxOutput: nat, mode: CacheMode)
    requires PriceOf(model).Some?
    ensures CostOf(FullWindow(maxOutput, mode), PriceOf(model).value) == Bound(PriceOf(model).value, maxOutput, mode)
  {
    var price := PriceOf(model).value;
    FullWindowInput(maxOutput, mode, price);
    EvenRate(maxOutput, price.output);
    RoundingAtWindow(Times(MAX_INPUT_TOKENS, InputRate(price, mode)), Times(maxOutput, price.output));
  }

  lemma RoundingAtWindow(input: nat, output: nat)
    requires output % 2 == 0
    ensures RoundedCost(input, output, true) == input * 2 + output * 3 / 2
  {
  }

  lemma FullWindowInput(maxOutput: nat, mode: CacheMode, price: Price)
    ensures InputCost(FullWindow(maxOutput, mode), price) == Times(MAX_INPUT_TOKENS, InputRate(price, mode))
  {
  }
}

/**
 Markup rules and passenger prices (src/pricing.rs): prioritised rule resolution,
 the rounded selling price of a passenger and its discount.
 */
module Pricing {
  import opened Wrappers
  import opened Money

  datatype Audience = B2c | B2b | Agent(id: string)
  datatype Markup = Fixed(amount: real) | Percentage(percent: real)
  datatype Rule = Rule(id: string, audience: Audience, airline: Option<string>, route: Option<(string, string)>, markup: Markup)
  datatype ResolutionError = PricingConfigurationError | DuplicateMatchingRules

  /** A pass of the search: one audience and one combination of specific scopes. */
  datatype Pass = Pass(audience: Audience, airline: bool, route: bool)

  predicate Covers(rule: Rule, airline: string, route: (string, string)) {
    (rule.airline.None? || rule.airline.value == airline) && (rule.route.None? || rule.route.value == route)
  }

  predicate InPass(rule: Rule, pass: Pass, airline: string, route: (string, string)) {
    && rule.audience == pass.audience
    && rule.airline.Some? == pass.airline
    && rule.route.Some? == pass.route
    && Covers(rule, airline, route)
  }

  function Passes(audience: Audience): seq<Pass> {
    PassesOf(audience) + if audience.Agent? then PassesOf(B2b) else []
  }

  function PassesOf(audience: Audience): seq<Pass> {
    [Pass(audience, true, true), Pass(audience, false, true), Pass(audience, true, false), Pass(audience, false, false)]
  }

  /** A rule that may price this audience at all. */
  predicate Applies(rule: Rule, audience: Audience, airline: string, route: (string, string)) {
    (rule.audience == audience || (audience.Agent? && rule.audience.B2b?)) && Covers(rule, airline, route)
  }

  /** Own audience before the general one; then route and airline, route, airline, neither. */
  function Specificity(rule: Rule, audience: Audience): nat {
    (if rule.audience == audience then 0 else 4) +
    (if rule.route.Some? then (if rule.airline.Some? then 0 else 1) else if rule.airline.Some? then 2 else 3)
  }

  lemma PassIsSpecificity(rule: Rule, audience: Audience, airline: string, route: (string, string), p: nat)
    requires p < |Passes(audience)|
    ensures InPass(rule, Passes(audience)[p], airline, route) <==> Applies(rule, audience, airline, route) && Specificity(rule, audience) == p
  {
  }

  /** The rule that wins, or why none does. */
  ghost predicate Resolves(rules: seq<Rule>, audience: Audience, airline: string, route: (string, string), i: nat) {
    && i < |rules| && Applies(rules[i], audience, airline, route)
    && forall j | 0 <= j < |rules| && j != i && Applies(rules[j], audience, airline, route) ::
         Specificity(rules[i], audience) < Specificity(rules[j], audience)
  }

  ghost predicate Ambiguous(rules: seq<Rule>, audience: Audience, airline: string, route: (string, string)) {
    exists i, j | 0 <= i < j < |rules| ::
      && Applies(rules[i], audience, airline, route) && Applies(rules[j], audience, airline, route)
      && Specificity(rules[i], audience) == Specificity(rules[j], audience)
      && forall k | 0 <= k < |rules| && Applies(rules[k], audience, airline, route) ::
           Specificity(rules[i], audience) <= Specificity(rules[k], audience)
  }

  /** Resolution by passes picks the unique most specific rule, or reports the tie or the absence. */
  method Resolve(rules: seq<Rule>, audience: Audience, airline: string, route: (string, string)) returns (r: Result<Rule, ResolutionError>)
    ensures r.Ok? ==> exists i: nat :: Resolves(rules, audience, airline, route, i) && r.value == rules[i]
    ensures r == Err(DuplicateMatchingRules) <==> Ambiguous(rules, audience, airline, route)
    ensures r == Err(PricingConfigurationError) <==> forall i | 0 <= i < |rules| :: !Applies(rules[i], audience, airline, route)
  {
    var passes := Passes(audience);
    for p := 0 to |passes|
      invariant forall i | 0 <= i < |rules| && Applies(rules[i], audience, airline, route) :: Specificity(rules[i], audience) >= p
    {
      forall i | 0 <= i < |rules|
        ensures InPass(rules[i], passes[p], airline, route) <==> Applies(rules[i], audience, airline, route) && Specificity(rules[i], audience) == p
      {
        PassIsSpecificity(rules[i], audience, airline, route, p);
      }
      var first := FirstInPass(rules, passes[p], airline, route, 0);
      if first.Some? {
        var second := FirstInPass(rules, passes[p], airline, route, first.value + 1);
        if second.Some? {
          assert Applies(rules[first.value], audience, airline, route) && Applies(rules[second.value], audience, airline, route);
          return Err(DuplicateMatchingRules);
        }
        assert Resolves(rules, audience, airline, route, first.value);
        return Ok(rules[first.value]);
      }
    }
    assert forall i | 0 <= i < |rules| :: Specificity(rules[i], audience) < 8;
    assert !audience.Agent? ==> forall i | 0 <= i < |rules| && Applies(rules[i], audience, airline, route) :: Specificity(rules[i], audience) < 4;
    r := Err(PricingConfigurationError);
  }

  method FirstInPass(rules: seq<Rule>, pass: Pass, airline: string, route: (string, string), from: nat) returns (found: Option<nat>)
    requires from <= |rules|
    ensures found.Some? ==> from <= found.value < |rules| && InPass(rules[found.value], pass, airline, route)
    ensures forall i | from <= i < (if found.Some? then found.value else |rules|) :: !InPass(rules[i], pass, airline, route)
  {
    for i := from to |rules|
      invariant forall j | from <= j < i :: !InPass(rules[j], pass, airline, route)
    {
      if InPass(rules[i], pass, airline, route) {
        return Some(i);
      }
    }
    found := None;
  }

  // ---------------------------------------------------------------------------

  datatype PassengerFare = PassengerFare(supplierTotal: real, base: real, taxes: real, ait: real, count: nat)
  datatype SellingFare = SellingFare(total: real, discount: real, count: nat)

  function MarkupAmount(supplierTotal: real, markup: Markup): real {
    match markup
    case Fixed(amount) => amount
    case Percentage(percent) => supplierTotal * percent * 0.01
  }

  function Price(original: PassengerFare, markup: Markup): SellingFare {
    var total := Round2(original.supplierTotal + MarkupAmount(original.supplierTotal, markup));
    SellingFare(total, original.base + original.taxes - (total - original.ait), original.count)
  }

  /** The amount before rounding: the supplier's and the fixed amount, or so many per cent more. */
  predicate MarkedUp(supplierTotal: real, markup: Markup, exact: real) {
    match markup
    case Fixed(amount) => exact == supplierTotal + amount
    case Percentage(percent) => exact * 100.0 == supplierTotal * (100.0 + percent)
  }

  /** A passenger's selling total is the marked-up supplier total to the nearest cent, and together with the discount
   it makes up base, taxes and AIT. */
  lemma PriceIsMarkedUp(original: PassengerFare, markup: Markup, exact: real)
    requires MarkedUp(original.supplierTotal, markup, exact)
    ensures var selling := Price(original, markup);
            && Nearest(exact, selling.total)
            && selling.total + selling.discount == original.base + original.taxes + original.ait
            && selling.count == original.count
  {
    MarkupIsExact(original.supplierTotal, markup, exact);
    RoundIsNearest(exact);
    hide Round2, Cents, MarkupAmount;
  }

  lemma MarkupIsExact(supplierTotal: real, markup: Markup, exact: real)
    requires MarkedUp(supplierTotal, markup, exact)
    ensures supplierTotal + MarkupAmount(supplierTotal, markup) == exact
  {
  }

  function Aggregate(fares: seq<SellingFare>): real {
    if fares == [] then 0.0
    else
      var last := fares[|fares| - 1];
      Aggregate(fares[..|fares| - 1]) + last.total * last.count as real
  }

  function Priced(originals: seq<PassengerFare>, markup: Markup): seq<SellingFare> {
    seq(|originals|, i requires 0 <= i < |originals| => Price(originals[i], markup))
  }

  function Counts(originals: seq<PassengerFare>): seq<nat> {
    seq(|originals|, i requires 0 <= i < |originals| => originals[i].count)
  }

  /** Supplier total plus markup before rounding. */
  function ExactTotals(originals: seq<PassengerFare>, markup: Markup): seq<real> {
    seq(|originals|, i requires 0 <= i < |originals| => originals[i].supplierTotal + MarkupAmount(originals[i].supplierTotal, markup))
  }

  function Totals(fares: seq<SellingFare>): seq<real> {
    seq(|fares|, i requires 0 <= i < |fares| => fares[i].total)
  }

  lemma {:induction false} AggregateIsWeighted(fares: seq<SellingFare>, counts: seq<nat>)
    requires |fares| == |counts| && forall i | 0 <= i < |fares| :: fares[i].count == counts[i]
    ensures Aggregate(fares) == Weighted(Totals(fares), counts)
  {
    if fares != [] {
      var n := |fares| - 1;
      AggregateIsWeighted(fares[..n], counts[..n]);
      assert Totals(fares)[..n] == Totals(fares[..n]);
    }
  }

  /** Rounding each passenger moves the aggregate by at most half a cent a head. */
  lemma AggregateRoundingBound(originals: seq<PassengerFare>, markup: Markup)
    ensures var gap := Aggregate(Priced(originals, markup)) - Weighted(ExactTotals(originals, markup), Counts(originals));
            -0.005 * Heads(Counts(originals)) as real <= gap <= 0.005 * Heads(Counts(originals)) as real
  {
    var rounded, exact, counts := Totals(Priced(originals, markup)), ExactTotals(originals, markup), Counts(originals);
    AggregateIsWeighted(Priced(originals, markup), counts);
    forall i | 0 <= i < |originals|
      ensures -0.005 <= rounded[i] - exact[i] <= 0.005
    {
      RoundNear(exact[i]);
    }
    WeightedNear(rounded, exact, counts);
  }
}

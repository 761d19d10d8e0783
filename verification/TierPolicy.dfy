/** The global tier policy row and its versioned update (src/tier.rs). */
module TierPolicy {
  import opened Wrappers
  import opened Money
  import opened FareBreakdown
  import opened TierPricing

  datatype PolicyError = InvalidTierPolicy | TierPolicyVersionConflict
  datatype Policy = Policy(version: int, basic: int, professional: int, enterprise: int)

  function Share(policy: Policy, tier: Tier): int {
    match tier
    case Basic => policy.basic
    case Professional => policy.professional
    case Enterprise => policy.enterprise
  }

  predicate Ordered(policy: Policy) {
    policy.version >= 1 && 0 <= policy.basic <= policy.professional <= policy.enterprise <= 100
  }

  class PolicyRow {
    var current: Policy

    ghost predicate Valid()
      reads this
    {
      Ordered(current)
    }

    constructor (initial: Policy)
      requires Ordered(initial)
      ensures Valid() && current == initial
    {
      current := initial;
    }

    /** Shares change together, in order, and only from the version the administrator saw. */
    method SetPolicy(expectedVersion: int, basic: int, professional: int, enterprise: int) returns (r: Result<Policy, PolicyError>)
      requires Valid()
      modifies this
      ensures Valid()
      ensures r.Ok? <==> 0 <= basic <= professional <= enterprise <= 100 && expectedVersion == old(current).version
      ensures r.Ok? ==> current == r.value == Policy(old(current).version + 1, basic, professional, enterprise)
      ensures r.Err? ==> current == old(current)
      ensures r == Err(TierPolicyVersionConflict) <==>
                expectedVersion >= 1 && 0 <= basic <= professional <= enterprise <= 100 && expectedVersion != old(current).version
    {
      if expectedVersion < 1 || basic < 0 || basic > professional || professional > enterprise || enterprise > 100 {
        return Err(InvalidTierPolicy);
      }
      if current.version != expectedVersion {
        return Err(TierPolicyVersionConflict);
      }
      current := Policy(current.version + 1, basic, professional, enterprise);
      r := Ok(current);
    }
  }

  /** Under any policy the row can hold, the three tiers pay in order, one passenger at a time. */
  lemma TiersPayInOrder(policy: Policy, gross: real, marked: real)
    requires Ordered(policy) && Cents(gross) && Cents(marked)
    ensures var pay := (tier: Tier) => Payable(gross, marked, Share(policy, tier));
            if marked <= gross then marked <= pay(Enterprise) <= pay(Professional) <= pay(Basic) <= gross
            else gross <= pay(Basic) <= pay(Professional) <= pay(Enterprise) <= marked
  {
    PayableMonotone(gross, marked, policy.basic, policy.professional);
    PayableMonotone(gross, marked, policy.professional, policy.enterprise);
    PayableBetween(gross, marked, policy.basic);
    PayableBetween(gross, marked, policy.enterprise);
  }
}

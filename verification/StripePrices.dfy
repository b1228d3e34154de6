/** The amounts of a price (backend/app/billing/stripe_catalog.py): what a creation sends, and when an existing price
    charges exactly what the catalog wants.

    `Terms` in StripeCatalog are the normal form in which the two are compared; here that is proved of the comparison
    as it is written. How a currency code is put in lower case is a parameter.
  */
module StripePrices {
  import opened Common
  import opened StripeCatalog

  /** Where a tier ends, as the account gives it. */
  datatype UpTo = NoEnd | Inf | Units(n: int)

  /** A tier of a remote price; amounts may be missing. */
  datatype RawTier = RawTier(upTo: UpTo, flatAmount: Option<int>, unitAmount: Option<int>)

  datatype Recurring = Recurring(interval: Option<string>, intervalCount: Option<int>, usageType: Option<string>)

  /** The product of a price: its id, or the product itself. */
  datatype ProductRef = NoProduct | ById(id: string) | Expanded(product: Option<string>)

  datatype RemotePrice = RemotePrice(product: ProductRef, currency: Option<string>, recurring: Option<Recurring>,
                                     billingScheme: Option<string>, tiersMode: Option<string>,
                                     tiers: Option<seq<RawTier>>, unitAmount: Option<int>)

  function OrElse<T>(value: Option<T>, default: T): T {
    if value.Some? then value.value else default
  }

  /** `value or default` of a text: an empty one counts as missing. */
  function TextOr(value: Option<string>, default: string): string {
    if value.Some? && value.value != "" then value.value else default
  }

  /** `value or default` of a number: zero counts as missing. */
  function NumberOr(value: Option<int>, default: int): int {
    if value.Some? && value.value != 0 then value.value else default
  }

  // ---------------------------------------------------------------- comparing

  function NormalTier(tier: RawTier): Tier {
    Tier(if tier.upTo.Units? then Some(tier.upTo.n) else None,
         NumberOr(tier.flatAmount, 0), NumberOr(tier.unitAmount, 0))
  }

  /** _normalize_tiers */
  function NormalTiers(tiers: Option<seq<RawTier>>): Option<seq<Tier>> {
    if tiers.None? then None
    else Some(seq(|tiers.value|, k requires 0 <= k < |tiers.value| => NormalTier(tiers.value[k])))
  }

  /** _id_of */
  function IdOf(product: ProductRef): Option<string> {
    match product
    case NoProduct => None
    case ById(id) => Some(id)
    case Expanded(id) => id
  }

  /** price_amounts_match, branch by branch. */
  predicate AmountsMatch(terms: Terms, price: RemotePrice, lower: string -> string) {
    var recurring := OrElse(price.recurring, Recurring(None, None, None));
    if lower(OrElse(price.currency, "")) != terms.currency then false
    else if IdOf(price.product) != Some(terms.product) then false
    else if recurring.interval != Some(terms.interval) || NumberOr(recurring.intervalCount, 1) != 1 then false
    else if TextOr(recurring.usageType, "licensed") != "licensed" then false
    else if terms.tiers.Some? then
      price.billingScheme == Some("tiered") && price.tiersMode == Some("graduated")
      && NormalTiers(price.tiers) == terms.tiers
    else TextOr(price.billingScheme, "per_unit") == "per_unit" && price.unitAmount == terms.unitAmount
  }

  /** What a tiered price would charge per unit is not looked at. */
  function Normal(terms: Terms): Terms {
    if terms.tiers.Some? then terms.(unitAmount := None) else terms
  }

  /** The amounts a price charges, by one flat or one graduated scheme; None if they are of another kind. */
  function ChargedPer(price: RemotePrice): Option<(Option<int>, Option<seq<Tier>>)> {
    if TextOr(price.billingScheme, "per_unit") == "per_unit" then Some((price.unitAmount, None))
    else if price.billingScheme == Some("tiered") && price.tiersMode == Some("graduated") && price.tiers.Some? then
      Some((None, NormalTiers(price.tiers)))
    else None
  }

  /** The terms of a remote price, if it is one the catalog could describe. */
  function TermsOf(price: RemotePrice, lower: string -> string): Option<Terms> {
    var recurring, amounts := OrElse(price.recurring, Recurring(None, None, None)), ChargedPer(price);
    if IdOf(price.product).None? || recurring.interval.None? || amounts.None?
       || NumberOr(recurring.intervalCount, 1) != 1 || TextOr(recurring.usageType, "licensed") != "licensed" then None
    else
      Some(Terms(IdOf(price.product).value, lower(OrElse(price.currency, "")), recurring.interval.value,
                 amounts.value.0, amounts.value.1))
  }

  /** A price matches exactly when it has terms, and they are the ones wanted. */
  lemma MatchIsEqualityOfTerms(terms: Terms, price: RemotePrice, lower: string -> string)
    ensures AmountsMatch(terms, price, lower) <==> TermsOf(price, lower) == Some(Normal(terms))
  {
    var scheme := price.billingScheme;
    assert scheme == Some("tiered") ==> TextOr(scheme, "per_unit") == "tiered" != "per_unit";
  }

  // ---------------------------------------------------------------- creating

  /** Tier.to_params */
  function TierParams(tier: Tier): RawTier {
    RawTier(if tier.upTo.None? then Inf else Units(tier.upTo.value), Some(tier.flatAmount), Some(tier.unitAmount))
  }

  function TiersParams(tiers: seq<Tier>): seq<RawTier> {
    seq(|tiers|, k requires 0 <= k < |tiers| => TierParams(tiers[k]))
  }

  /** PriceSpec.create_params, as the account keeps them. */
  function Created(terms: Terms): RemotePrice {
    RemotePrice(ById(terms.product), Some(terms.currency),
                Some(Recurring(Some(terms.interval), Some(1), Some("licensed"))),
                Some(if terms.tiers.Some? then "tiered" else "per_unit"),
                if terms.tiers.Some? then Some("graduated") else None,
                if terms.tiers.None? then None else Some(TiersParams(terms.tiers.value)),
                if terms.tiers.Some? then None else terms.unitAmount)
  }

  /** A price just created matches what it was created for, if and only if the currency is written in lower case. */
  lemma CreatedPriceMatches(terms: Terms, lower: string -> string)
    ensures AmountsMatch(terms, Created(terms), lower) <==> lower(terms.currency) == terms.currency
    ensures lower(terms.currency) == terms.currency ==> TermsOf(Created(terms), lower) == Some(Normal(terms))
  {
    if terms.tiers.Some? {
      var tiers, raw := terms.tiers.value, Created(terms).tiers.value;
      forall k | 0 <= k < |tiers|
        ensures NormalTier(raw[k]) == tiers[k]
      {}
      assert NormalTiers(Some(raw)).value == tiers;
    }
    MatchIsEqualityOfTerms(terms, Created(terms), lower);
  }

  /** No price matches two entries of the catalog with different terms. */
  lemma OneMatch(terms: Terms, other: Terms, price: RemotePrice, lower: string -> string)
    requires AmountsMatch(terms, price, lower) && AmountsMatch(other, price, lower)
    ensures Normal(terms) == Normal(other)
  {
    MatchIsEqualityOfTerms(terms, price, lower);
    MatchIsEqualityOfTerms(other, price, lower);
  }
}

/** The Stripe catalog reconciler (backend/scripts/stripe_sync_catalog.py): it plans writes over the remote
    products, prices and portal configurations, and applies them.

    The remote account is a `Store` with the contracts the script relies on: ids are unique, a lookup key is
    held by at most one price, a creation whose idempotency key was seen before replays the old answer and
    creates nothing, an update replaces the given fields and merges metadata.
  */
module StripeCatalog {
  import opened Common

  type Metadata = map<string, string>

  /** The id of a remote object: one it was given, or one the account made. */
  datatype Id = Named(name: string) | Made(n: nat)

  // ---------------------------------------------------------------- the catalog

  datatype ProductSpec = ProductSpec(id: string, name: string, metadata: Metadata)

  datatype Tier = Tier(upTo: Option<int>, flatAmount: int, unitAmount: int)

  /** What can never be edited in a price, in the normal form in which price_amounts_match compares it. */
  datatype Terms = Terms(product: string, currency: string, interval: string, unitAmount: Option<int>,
                         tiers: Option<seq<Tier>>)

  datatype PriceSpec = PriceSpec(lookupKey: string, terms: Terms, nickname: string, metadata: Metadata)

  datatype Json =
    | Null
    | Text(text: string)
    | Flag(flag: bool)
    | List(items: seq<string>)
    | Object(fields: map<string, Json>)

  type Fields = map<string, Json>

  const MANAGED_BY := "arquivio_catalog_sync"

  // ---------------------------------------------------------------- the remote account

  datatype Product = Product(name: string, active: bool, metadata: Metadata)

  datatype Price = Price(lookupKey: Option<string>, active: bool, terms: Terms, nickname: Option<string>,
                         metadata: Metadata)

  datatype Config = Config(id: Id, isDefault: bool, fields: Fields)

  /** What an idempotency key is made from. */
  datatype IdempotencyKey =
    | ProductKey(product: ProductSpec)
    | PriceKey(price: PriceSpec, replaced: Option<Id>)
    | PortalKey(portal: Fields)

  datatype Store = Store(products: map<string, Product>, prices: map<Id, Price>, configs: seq<Config>,
                         used: set<IdempotencyKey>, made: nat)

  datatype PriceUpdate = PriceUpdate(active: Option<bool>, metadata: Option<Metadata>, nickname: Option<string>)

  datatype Action =
    | CreateProduct(product: ProductSpec)
    | UpdateProduct(target: ProductSpec)
    | CreatePrice(price: PriceSpec, replaced: Option<Id>)
    | UpdatePrice(priceId: Id, update: PriceUpdate)
    | CreateConfig(desired: Fields)
    | UpdateConfig(configId: Id, params: Fields)

  predicate Holds(prices: map<Id, Price>, id: Id, lookupKey: string) {
    id in prices && prices[id].lookupKey == Some(lookupKey)
  }

  ghost predicate UniqueHolders(prices: map<Id, Price>) {
    forall i, k, key :: Holds(prices, i, key) && Holds(prices, k, key) ==> i == k
  }

  ghost predicate Valid(s: Store) {
    && UniqueHolders(s.prices)
    && (forall i, k :: 0 <= i < k < |s.configs| ==> s.configs[i].id != s.configs[k].id)
    && (forall n: nat :: Made(n) in s.prices ==> n < s.made)
    && (forall k :: 0 <= k < |s.configs| && s.configs[k].id.Made? ==> s.configs[k].id.n < s.made)
  }

  // ---------------------------------------------------------------- matching

  function GetField(actual: Json, key: string): Json {
    if actual.Object? && key in actual.fields then actual.fields[key] else Null
  }

  /** Every field of `desired` is present with an equal value; lists are compared without regard to order. */
  predicate SubsetMatches(desired: Json, actual: Json)
    decreases desired
  {
    match desired
    case Object(fields) => forall key :: key in fields ==> SubsetMatches(fields[key], GetField(actual, key))
    case List(items) => actual.List? && multiset(items) == multiset(actual.items)
    case _ => desired == actual
  }

  lemma {:induction false} MatchesItself(value: Json)
    ensures SubsetMatches(value, value)
    decreases value
  {
    if value.Object? {
      forall key | key in value.fields
        ensures SubsetMatches(value.fields[key], GetField(value, key))
      {
        MatchesItself(value.fields[key]);
      }
    }
  }

  /** Whatever is matched once is matched again by every object that has the same values, or more. */
  lemma MatchesLarger(fields: Fields, more: Fields)
    requires forall key :: key in fields ==> key in more && more[key] == fields[key]
    ensures SubsetMatches(Object(fields), Object(more))
  {
    forall key | key in fields
      ensures SubsetMatches(fields[key], GetField(Object(more), key))
    {
      MatchesItself(fields[key]);
    }
  }

  predicate Contains(metadata: Metadata, wanted: Metadata) {
    forall key :: key in wanted ==> key in metadata && metadata[key] == wanted[key]
  }

  // ---------------------------------------------------------------- planning

  predicate ProductMatches(product: Product, spec: ProductSpec) {
    product.name == spec.name && product.active && Contains(product.metadata, spec.metadata)
  }

  predicate ProductInSync(products: map<string, Product>, spec: ProductSpec) {
    spec.id in products && ProductMatches(products[spec.id], spec)
  }

  /** The writes for one product, given the product found by its id. */
  function PlanFoundProduct(spec: ProductSpec, found: Option<Product>): seq<Action> {
    if found.None? then [CreateProduct(spec)]
    else if !ProductMatches(found.value, spec) then [UpdateProduct(spec)]
    else []
  }

  function PlanProduct(products: map<string, Product>, spec: ProductSpec): seq<Action> {
    PlanFoundProduct(spec, if spec.id in products then Some(products[spec.id]) else None)
  }

  function PlanProducts(products: map<string, Product>, specs: seq<ProductSpec>): seq<Action> {
    if specs == [] then [] else PlanProduct(products, specs[0]) + PlanProducts(products, specs[1..])
  }

  const NOTHING := PriceUpdate(None, None, None)

  /** The fields other than the amounts that are to change. */
  function Drift(price: Price, spec: PriceSpec): PriceUpdate {
    PriceUpdate(if price.active then None else Some(true),
                if Contains(price.metadata, spec.metadata) then None else Some(spec.metadata),
                if price.nickname == Some(spec.nickname) then None else Some(spec.nickname))
  }

  /** The writes for one price, given the price found by its lookup key. */
  function PlanFoundPrice(spec: PriceSpec, found: Option<(Id, Price)>): seq<Action> {
    if found.None? then [CreatePrice(spec, None)]
    else
      var (id, price) := found.value;
      if price.terms != spec.terms then
        [CreatePrice(spec, Some(id))]
        + if price.active then [UpdatePrice(id, PriceUpdate(Some(false), None, None))] else []
      else if Drift(price, spec) != NOTHING then [UpdatePrice(id, Drift(price, spec))]
      else []
  }

  ghost function Holder(prices: map<Id, Price>, lookupKey: string): (found: Option<Id>)
    ensures found.Some? ==> Holds(prices, found.value, lookupKey)
    ensures found.None? ==> forall id :: !Holds(prices, id, lookupKey)
  {
    if exists id :: Holds(prices, id, lookupKey) then
      var id :| Holds(prices, id, lookupKey);
      Some(id)
    else None
  }

  ghost function PlanPrice(prices: map<Id, Price>, spec: PriceSpec): seq<Action> {
    var found := Holder(prices, spec.lookupKey);
    PlanFoundPrice(spec, if found.None? then None else Some((found.value, prices[found.value])))
  }

  ghost function PlanPrices(prices: map<Id, Price>, specs: seq<PriceSpec>): seq<Action> {
    if specs == [] then [] else PlanPrice(prices, specs[0]) + PlanPrices(prices, specs[1..])
  }

  predicate IsManaged(config: Config) {
    GetField(GetField(Object(config.fields), "metadata"), "managed_by") == Text(MANAGED_BY)
  }

  predicate Truthy(value: Json) {
    match value
    case Null => false
    case Text(text) => text != ""
    case Flag(flag) => flag
    case List(items) => items != []
    case Object(fields) => fields != map[]
  }

  function FirstManaged(configs: seq<Config>): Option<Config> {
    if configs == [] then None
    else if IsManaged(configs[0]) then Some(configs[0])
    else FirstManaged(configs[1..])
  }

  function FirstDefault(configs: seq<Config>): Option<Config> {
    if configs == [] then None
    else if configs[0].isDefault then Some(configs[0])
    else FirstDefault(configs[1..])
  }

  /** The configuration to keep in sync: the first managed one, or else the default. */
  function Target(configs: seq<Config>): Option<Config> {
    if FirstManaged(configs).Some? then FirstManaged(configs) else FirstDefault(configs)
  }

  predicate ConfigInSync(config: Config, desired: Fields) {
    && SubsetMatches(Object(desired), Object(config.fields))
    && ("active" in config.fields ==> Truthy(config.fields["active"]))
  }

  function PlanPortal(configs: seq<Config>, desired: Fields): seq<Action> {
    match Target(configs)
    case None => [CreateConfig(desired)]
    case Some(config) =>
      if ConfigInSync(config, desired) then [] else [UpdateConfig(config.id, desired["active" := Flag(true)])]
  }

  datatype Catalog = Catalog(products: seq<ProductSpec>, prices: seq<PriceSpec>, portal: Fields, includePortal: bool)

  ghost function PlanSync(s: Store, catalog: Catalog): seq<Action> {
    PlanProducts(s.products, catalog.products) + PlanPrices(s.prices, catalog.prices)
    + if catalog.includePortal then PlanPortal(s.configs, catalog.portal) else []
  }

  /** What the catalog promises: distinct ids and lookup keys, prices of its own products, a tagged portal. */
  ghost predicate WellFormed(catalog: Catalog) {
    && (forall i, k :: 0 <= i < k < |catalog.products| ==> catalog.products[i].id != catalog.products[k].id)
    && (forall i, k :: 0 <= i < k < |catalog.prices| ==> catalog.prices[i].lookupKey != catalog.prices[k].lookupKey)
    && (forall i :: 0 <= i < |catalog.prices| ==>
          exists k :: 0 <= k < |catalog.products| && catalog.products[k].id == catalog.prices[i].terms.product)
    && IsTagged(catalog.portal)
  }

  predicate IsTagged(portal: Fields) {
    && "active" !in portal && "metadata" in portal && portal["metadata"].Object?
    && "managed_by" in portal["metadata"].fields && portal["metadata"].fields["managed_by"] == Text(MANAGED_BY)
  }

  // ---------------------------------------------------------------- applying

  function KeyOf(action: Action): Option<IdempotencyKey> {
    match action
    case CreateProduct(spec) => Some(ProductKey(spec))
    case CreatePrice(spec, replaced) => Some(PriceKey(spec, replaced))
    case CreateConfig(desired) => Some(PortalKey(desired))
    case _ => None
  }

  /** A lookup key is transferred away from the price that holds it. */
  function Released(prices: map<Id, Price>, lookupKey: string): map<Id, Price> {
    map id | id in prices ::
      if prices[id].lookupKey == Some(lookupKey) then prices[id].(lookupKey := None) else prices[id]
  }

  function UpdatedPrice(price: Price, update: PriceUpdate): Price {
    price.(active := if update.active.Some? then update.active.value else price.active,
           metadata := if update.metadata.Some? then price.metadata + update.metadata.value else price.metadata,
           nickname := if update.nickname.Some? then update.nickname else price.nickname)
  }

  /** An update of fields; metadata is merged, not replaced. */
  function MergedFields(fields: Fields, params: Fields): Fields {
    var replaced := fields + params;
    if "metadata" in fields && "metadata" in params && fields["metadata"].Object? && params["metadata"].Object? then
      replaced["metadata" := Object(fields["metadata"].fields + params["metadata"].fields)]
    else replaced
  }

  function UpdatedConfigs(configs: seq<Config>, id: Id, params: Fields): seq<Config> {
    if configs == [] then []
    else if configs[0].id == id then [configs[0].(fields := MergedFields(configs[0].fields, params))] + configs[1..]
    else [configs[0]] + UpdatedConfigs(configs[1..], id, params)
  }

  predicate HasConfig(configs: seq<Config>, id: Id) {
    exists k :: 0 <= k < |configs| && configs[k].id == id
  }

  /** One write; None if the account refuses it. */
  function Apply(s: Store, action: Action): Option<Store> {
    if KeyOf(action).Some? && KeyOf(action).value in s.used then Some(s)
    else
      match action
      case CreateProduct(spec) =>
        if spec.id in s.products then None
        else Some(s.(products := s.products[spec.id := Product(spec.name, true, spec.metadata)],
                     used := s.used + {ProductKey(spec)}))
      case UpdateProduct(spec) =>
        if spec.id !in s.products then None
        else
          var metadata := s.products[spec.id].metadata + spec.metadata;
          Some(s.(products := s.products[spec.id := Product(spec.name, true, metadata)]))
      case CreatePrice(spec, replaced) =>
        if spec.terms.product !in s.products then None
        else if replaced.None? && exists id :: id in s.prices && Holds(s.prices, id, spec.lookupKey) then None
        else
          Some(s.(prices := WithPrice(s, spec), made := s.made + 1, used := s.used + {PriceKey(spec, replaced)}))
      case UpdatePrice(id, update) =>
        if id !in s.prices then None
        else Some(s.(prices := s.prices[id := UpdatedPrice(s.prices[id], update)]))
      case CreateConfig(desired) =>
        Some(s.(configs := [Config(Made(s.made), false, map["active" := Flag(true)] + desired)] + s.configs,
                made := s.made + 1, used := s.used + {PortalKey(desired)}))
      case UpdateConfig(id, params) =>
        if !HasConfig(s.configs, id) then None else Some(s.(configs := UpdatedConfigs(s.configs, id, params)))
  }

  function ApplyAll(s: Store, actions: seq<Action>): Option<Store>
    decreases |actions|
  {
    if actions == [] then Some(s)
    else if Apply(s, actions[0]).None? then None
    else ApplyAll(Apply(s, actions[0]).value, actions[1..])
  }

  /** No creation in the plan would replay an earlier answer. */
  predicate FreshKeys(s: Store, actions: seq<Action>) {
    forall action :: action in actions && KeyOf(action).Some? ==> KeyOf(action).value !in s.used
  }

  lemma {:induction false} ApplyAppend(s: Store, first: seq<Action>, second: seq<Action>)
    ensures ApplyAll(s, first + second) ==
            if ApplyAll(s, first).None? then None else ApplyAll(ApplyAll(s, first).value, second)
    decreases |first|
  {
    if first == [] {
      assert first + second == second;
    } else if Apply(s, first[0]).Some? {
      assert (first + second)[1..] == first[1..] + second;
      ApplyAppend(Apply(s, first[0]).value, first[1..], second);
    }
  }

  lemma ApplyOne(s: Store, action: Action)
    ensures ApplyAll(s, [action]) == Apply(s, action)
  {
    assert [action][1..] == [];
  }

  /** The prices after a creation that holds the spec's lookup key. */
  function WithPrice(s: Store, spec: PriceSpec): map<Id, Price> {
    Released(s.prices, spec.lookupKey)
      [Made(s.made) := Price(Some(spec.lookupKey), true, spec.terms, Some(spec.nickname), spec.metadata)]
  }

  /** A transfer gives the key to the new price and takes it from the old one; nothing else changes hands. */
  lemma HoldersAfterCreation(s: Store, spec: PriceSpec)
    requires Valid(s)
    ensures var prices := WithPrice(s, spec);
            && UniqueHolders(prices)
            && (forall id :: Holds(prices, id, spec.lookupKey) <==> id == Made(s.made))
            && (forall id, key :: key != spec.lookupKey ==> (Holds(prices, id, key) <==> Holds(s.prices, id, key)))
            && (forall id, key :: key != spec.lookupKey && Holds(prices, id, key) ==> prices[id] == s.prices[id])
  {
    var prices := WithPrice(s, spec);
    assert Made(s.made) !in s.prices;
    forall id, key | key != spec.lookupKey
      ensures Holds(prices, id, key) <==> Holds(s.prices, id, key)
    {}
  }

  lemma HoldersAfterUpdate(s: Store, id: Id, update: PriceUpdate)
    requires Valid(s) && id in s.prices
    ensures var prices := s.prices[id := UpdatedPrice(s.prices[id], update)];
            UniqueHolders(prices) && forall i, key :: Holds(prices, i, key) <==> Holds(s.prices, i, key)
  {
    var prices := s.prices[id := UpdatedPrice(s.prices[id], update)];
    assert forall i, key :: Holds(prices, i, key) <==> Holds(s.prices, i, key);
  }

  lemma ApplyKeepsValid(s: Store, action: Action)
    requires Valid(s) && Apply(s, action).Some?
    ensures Valid(Apply(s, action).value)
  {
    match action
    case CreatePrice(spec, _) => HoldersAfterCreation(s, spec);
    case UpdatePrice(id, update) => HoldersAfterUpdate(s, id, update);
    case UpdateConfig(id, params) => UpdatedIds(s.configs, id, params);
    case _ =>
  }

  lemma {:induction false} UpdatedIds(configs: seq<Config>, id: Id, params: Fields)
    ensures var configs' := UpdatedConfigs(configs, id, params);
            |configs'| == |configs| && forall k :: 0 <= k < |configs| ==>
              configs'[k].id == configs[k].id && configs'[k].isDefault == configs[k].isDefault
    decreases |configs|
  {
    if configs != [] && configs[0].id != id {
      UpdatedIds(configs[1..], id, params);
    }
  }
}

/** Planning, applying and planning again (backend/scripts/stripe_sync_catalog.py), and what every write keeps. */
module StripeSync {
  import opened Common
  import opened StripeCatalog
  import opened StripeConvergence

  // ---------------------------------------------------------------- planning again after applying

  lemma {:induction false} PlannedProducts(products: map<string, Product>, specs: seq<ProductSpec>, action: Action)
    ensures action in PlanProducts(products, specs) <==>
            exists k :: 0 <= k < |specs| && action in PlanProduct(products, specs[k])
    decreases |specs|
  {
    if specs == [] {
    } else {
      PlannedProducts(products, specs[1..], action);
      assert specs == [specs[0]] + specs[1..];
    }
  }

  lemma {:induction false} PlannedPrices(prices: map<Id, Price>, specs: seq<PriceSpec>, action: Action)
    ensures action in PlanPrices(prices, specs) <==>
            exists k :: 0 <= k < |specs| && action in PlanPrice(prices, specs[k])
    decreases |specs|
  {
    if specs == [] {
    } else {
      PlannedPrices(prices, specs[1..], action);
      assert specs == [specs[0]] + specs[1..];
    }
  }

  lemma NothingPlanned(s: Store, catalog: Catalog)
    requires UniqueHolders(s.prices)
    ensures PlanSync(s, catalog) == [] <==>
            && ProductsInSync(s.products, catalog.products) && PricesInSync(s.prices, catalog.prices)
            && (catalog.includePortal ==> PlanPortal(s.configs, catalog.portal) == [])
  {
    NoProductsPlanned(s.products, catalog.products);
    NoPricesPlanned(s.prices, catalog.prices);
  }

  lemma {:induction false} NoProductsPlanned(products: map<string, Product>, specs: seq<ProductSpec>)
    ensures PlanProducts(products, specs) == [] <==> ProductsInSync(products, specs)
    decreases |specs|
  {
    if specs == [] {
    } else {
      NoProductsPlanned(products, specs[1..]);
      assert forall k :: 0 <= k < |specs| - 1 ==> specs[1..][k] == specs[k + 1];
      assert ProductsInSync(products, specs) <==>
             ProductInSync(products, specs[0]) && ProductsInSync(products, specs[1..]) by {
        forall k | 0 < k < |specs| && ProductsInSync(products, specs[1..])
          ensures ProductInSync(products, specs[k])
        {
          assert specs[k] == specs[1..][k - 1];
        }
      }
    }
  }

  lemma {:induction false} NoPricesPlanned(prices: map<Id, Price>, specs: seq<PriceSpec>)
    requires UniqueHolders(prices)
    ensures PlanPrices(prices, specs) == [] <==> PricesInSync(prices, specs)
    decreases |specs|
  {
    if specs == [] {
    } else {
      NoPricesPlanned(prices, specs[1..]);
      InSyncPlansNothing(prices, specs[0]);
      assert forall k :: 0 <= k < |specs| - 1 ==> specs[1..][k] == specs[k + 1];
      assert PricesInSync(prices, specs) <==> PriceInSync(prices, specs[0]) && PricesInSync(prices, specs[1..]) by {
        forall k | 0 < k < |specs| && PricesInSync(prices, specs[1..])
          ensures PriceInSync(prices, specs[k])
        {
          assert specs[k] == specs[1..][k - 1];
        }
      }
    }
  }

  lemma FreshPartsOfPlan(s: Store, catalog: Catalog)
    requires WellFormed(catalog) && FreshKeys(s, PlanSync(s, catalog))
    ensures forall k :: 0 <= k < |catalog.products| ==> ProductAsPlanned(s.products, s, catalog.products[k])
    ensures forall k :: 0 <= k < |catalog.prices| ==> FreshKeys(s, PlanPrice(s.prices, catalog.prices[k]))
    ensures catalog.includePortal ==> FreshKeys(s, PlanPortal(s.configs, catalog.portal))
  {
    var plan := PlanSync(s, catalog);
    forall k | 0 <= k < |catalog.products|
      ensures ProductAsPlanned(s.products, s, catalog.products[k])
    {
      var create := CreateProduct(catalog.products[k]);
      PlannedProducts(s.products, catalog.products, create);
      assert create in PlanProduct(s.products, catalog.products[k]) ==> create in plan && KeyOf(create).Some?;
    }
    forall k | 0 <= k < |catalog.prices|
      ensures FreshKeys(s, PlanPrice(s.prices, catalog.prices[k]))
    {
      forall action | action in PlanPrice(s.prices, catalog.prices[k])
        ensures action in plan
      {
        PlannedPrices(s.prices, catalog.prices, action);
      }
    }
  }

  lemma PriceReadyAfterProducts(s: Store, s1: Store, catalog: Catalog, spec: PriceSpec)
    requires WellFormed(catalog) && spec in catalog.prices
    requires OnlyProducts(s, s1) && ProductsInSync(s1.products, catalog.products)
    requires FreshKeys(s, PlanPrice(s.prices, spec))
    ensures PriceAsPlanned(s.prices, s1, spec)
  {
    var i :| 0 <= i < |catalog.products| && catalog.products[i].id == spec.terms.product;
    assert ProductInSync(s1.products, catalog.products[i]);
    PlanKeys(s.prices, spec);
    forall action | action in PlanPrice(s.prices, spec) && KeyOf(action).Some?
      ensures KeyOf(action).value !in s1.used
    {
      assert KeyOf(action).value !in s1.used - s.used;
    }
  }

  lemma PortalReadyAfterPrices(s: Store, s1: Store, s2: Store, portal: Fields)
    requires OnlyProducts(s, s1) && OnlyPrices(s1, s2) && FreshKeys(s, PlanPortal(s.configs, portal))
    ensures FreshKeys(s2, PlanPortal(s.configs, portal)) && s2.configs == s.configs
  {
    PortalKeysOnly(s.configs, portal);
    assert PortalKey(portal) !in s2.used - s1.used && PortalKey(portal) !in s1.used - s.used;
  }

  /** Fresh idempotency keys: the account accepts every write, and the next plan is empty. */
  lemma FreshPlanConverges(s: Store, catalog: Catalog)
    requires Valid(s) && WellFormed(catalog) && FreshKeys(s, PlanSync(s, catalog))
    ensures var r := ApplyAll(s, PlanSync(s, catalog)); r.Some? && PlanSync(r.value, catalog) == []
  {
    var products, prices := PlanProducts(s.products, catalog.products), PlanPrices(s.prices, catalog.prices);
    var portal := if catalog.includePortal then PlanPortal(s.configs, catalog.portal) else [];
    FreshPartsOfPlan(s, catalog);
    ProductsConverge(s.products, s, catalog.products);
    var s1 := ApplyAll(s, products).value;
    forall k | 0 <= k < |catalog.prices|
      ensures PriceAsPlanned(s.prices, s1, catalog.prices[k])
    {
      PriceReadyAfterProducts(s, s1, catalog, catalog.prices[k]);
    }
    PricesConverge(s.prices, s1, catalog.prices);
    var s2 := ApplyAll(s1, prices).value;
    ApplyAppend(s, products, prices);
    ApplyAppend(s, products + prices, portal);
    LastPhase(s, s1, s2, catalog);
  }

  lemma LastPhase(s: Store, s1: Store, s2: Store, catalog: Catalog)
    requires WellFormed(catalog) && Valid(s2) && OnlyProducts(s, s1) && OnlyPrices(s1, s2)
    requires ProductsInSync(s1.products, catalog.products) && PricesInSync(s2.prices, catalog.prices)
    requires catalog.includePortal ==> FreshKeys(s, PlanPortal(s.configs, catalog.portal))
    ensures var r := ApplyAll(s2, if catalog.includePortal then PlanPortal(s.configs, catalog.portal) else []);
            r.Some? && PlanSync(r.value, catalog) == []
  {
    if catalog.includePortal {
      PortalReadyAfterPrices(s, s1, s2, catalog.portal);
      PortalConverges(s2, catalog.portal);
      NothingPlanned(ApplyAll(s2, PlanPortal(s.configs, catalog.portal)).value, catalog);
    } else {
      NothingPlanned(s2, catalog);
    }
  }

  lemma PortalKeysOnly(configs: seq<Config>, portal: Fields)
    ensures forall action :: action in PlanPortal(configs, portal) && KeyOf(action).Some? ==>
              KeyOf(action).value == PortalKey(portal)
  {}

  // ---------------------------------------------------------------- replayed creations

  /** Every creation that `about` picks would replay an earlier answer. */
  predicate Replays(s: Store, actions: seq<Action>, about: Action -> bool) {
    forall action :: action in actions && about(action) ==> KeyOf(action).Some? && KeyOf(action).value in s.used
  }

  lemma ApplyKeepsUsed(s: Store, action: Action)
    requires Apply(s, action).Some?
    ensures s.used <= Apply(s, action).value.used
  {}

  function CreatesProduct(id: string): Action -> bool {
    (action: Action) => action.CreateProduct? && action.product.id == id
  }

  lemma {:induction false} ProductStaysMissing(s: Store, actions: seq<Action>, id: string)
    requires id !in s.products && ApplyAll(s, actions).Some? && Replays(s, actions, CreatesProduct(id))
    ensures id !in ApplyAll(s, actions).value.products
    decreases |actions|
  {
    if actions == [] {
    } else {
      var first := actions[0];
      assert first in actions && CreatesProduct(id)(first) == (first.CreateProduct? && first.product.id == id);
      ApplyKeepsUsed(s, actions[0]);
      ProductStaysMissing(Apply(s, actions[0]).value, actions[1..], id);
    }
  }

  function CreatesPrice(lookupKey: string): Action -> bool {
    (action: Action) => action.CreatePrice? && action.price.lookupKey == lookupKey
  }

  /** The same prices hold the key, on the same terms. */
  ghost predicate SameTerms(prices: map<Id, Price>, prices': map<Id, Price>, lookupKey: string) {
    && (forall id :: Holds(prices, id, lookupKey) <==> Holds(prices', id, lookupKey))
    && (forall id :: Holds(prices, id, lookupKey) ==> prices[id].terms == prices'[id].terms)
  }

  lemma ApplyKeepsTerms(s: Store, action: Action, lookupKey: string)
    requires Valid(s) && Apply(s, action).Some?
    requires action.CreatePrice? && action.price.lookupKey == lookupKey ==> KeyOf(action).value in s.used
    ensures SameTerms(s.prices, Apply(s, action).value.prices, lookupKey)
  {
    match action
    case CreatePrice(spec, _) => HoldersAfterCreation(s, spec);
    case UpdatePrice(id, update) => HoldersAfterUpdate(s, id, update);
    case _ =>
  }

  lemma {:induction false} HolderStays(s: Store, actions: seq<Action>, lookupKey: string)
    requires Valid(s) && ApplyAll(s, actions).Some? && Replays(s, actions, CreatesPrice(lookupKey))
    ensures SameTerms(s.prices, ApplyAll(s, actions).value.prices, lookupKey)
    ensures Valid(ApplyAll(s, actions).value)
    decreases |actions|
  {
    if actions == [] {
    } else {
      assert actions[0] in actions;
      var first := actions[0];
      assert CreatesPrice(lookupKey)(first) == (first.CreatePrice? && first.price.lookupKey == lookupKey);
      ApplyKeepsTerms(s, actions[0], lookupKey);
      ApplyKeepsValid(s, actions[0]);
      ApplyKeepsUsed(s, actions[0]);
      HolderStays(Apply(s, actions[0]).value, actions[1..], lookupKey);
    }
  }

  function WritesConfig(): Action -> bool {
    (action: Action) => action.CreateConfig? || action.UpdateConfig?
  }

  lemma {:induction false} ConfigsStay(s: Store, actions: seq<Action>)
    requires ApplyAll(s, actions).Some? && Replays(s, actions, WritesConfig())
    ensures ApplyAll(s, actions).value.configs == s.configs
    decreases |actions|
  {
    if actions == [] {
    } else {
      var first := actions[0];
      assert first in actions && WritesConfig()(first) == (first.CreateConfig? || first.UpdateConfig?);
      ApplyKeepsUsed(s, actions[0]);
      ConfigsStay(Apply(s, actions[0]).value, actions[1..]);
    }
  }

  /** Where a planned creation comes from. */
  lemma PlannedCreation(s: Store, catalog: Catalog, action: Action)
    requires action in PlanSync(s, catalog)
    ensures action.CreateProduct? ==> action.product in catalog.products && action.product.id !in s.products
    ensures action.CreatePrice? ==> action.price in catalog.prices && action in PlanPrice(s.prices, action.price)
    ensures action.CreateConfig? || action.UpdateConfig? ==>
              catalog.includePortal && action in PlanPortal(s.configs, catalog.portal)
  {
    PlannedProducts(s.products, catalog.products, action);
    PlannedPrices(s.prices, catalog.prices, action);
    if k :| 0 <= k < |catalog.products| && action in PlanProduct(s.products, catalog.products[k]) {
    } else if k :| 0 <= k < |catalog.prices| && action in PlanPrice(s.prices, catalog.prices[k]) {
    } else {
      assert action in PlanPortal(s.configs, catalog.portal);
    }
  }

  lemma ReplayedProductIsPlannedAgain(s: Store, catalog: Catalog, spec: ProductSpec)
    requires WellFormed(catalog) && spec in catalog.products
    requires spec.id !in s.products && ProductKey(spec) in s.used && ApplyAll(s, PlanSync(s, catalog)).Some?
    ensures spec.id !in ApplyAll(s, PlanSync(s, catalog)).value.products
  {
    var plan := PlanSync(s, catalog);
    forall action | action in plan && CreatesProduct(spec.id)(action)
      ensures action == CreateProduct(spec)
    {
      PlannedCreation(s, catalog, action);
      assert action.product in catalog.products && action.product.id == spec.id;
    }
    ProductStaysMissing(s, plan, spec.id);
  }

  lemma OneCreationPerKey(prices: map<Id, Price>, spec: PriceSpec, a: Action, b: Action)
    requires a in PlanPrice(prices, spec) && b in PlanPrice(prices, spec) && a.CreatePrice? && b.CreatePrice?
    ensures a == b
  {}

  lemma ReplayedPriceIsPlannedAgain(s: Store, catalog: Catalog, spec: PriceSpec, create: Action)
    requires Valid(s) && WellFormed(catalog) && spec in catalog.prices && ApplyAll(s, PlanSync(s, catalog)).Some?
    requires create in PlanPrice(s.prices, spec) && create.CreatePrice? && KeyOf(create).value in s.used
    ensures !PriceInSync(ApplyAll(s, PlanSync(s, catalog)).value.prices, spec)
  {
    var plan := PlanSync(s, catalog);
    forall action | action in plan && CreatesPrice(spec.lookupKey)(action)
      ensures KeyOf(action).Some? && KeyOf(action).value in s.used
    {
      PlannedCreation(s, catalog, action);
      assert action.price in catalog.prices && action.price.lookupKey == spec.lookupKey;
      assert action.price == spec;
      OneCreationPerKey(s.prices, spec, action, create);
    }
    HolderStays(s, plan, spec.lookupKey);
    CreationIsNeeded(s.prices, ApplyAll(s, plan).value.prices, spec, create);
  }

  lemma CreationIsNeeded(prices: map<Id, Price>, prices': map<Id, Price>, spec: PriceSpec, create: Action)
    requires UniqueHolders(prices) && create in PlanPrice(prices, spec) && create.CreatePrice?
    requires SameTerms(prices, prices', spec.lookupKey)
    ensures !PriceInSync(prices', spec)
  {}

  lemma ReplayedPortalIsPlannedAgain(s: Store, catalog: Catalog)
    requires catalog.includePortal && ApplyAll(s, PlanSync(s, catalog)).Some?
    requires CreateConfig(catalog.portal) in PlanPortal(s.configs, catalog.portal)
    requires PortalKey(catalog.portal) in s.used
    ensures PlanPortal(ApplyAll(s, PlanSync(s, catalog)).value.configs, catalog.portal) != []
  {
    var plan := PlanSync(s, catalog);
    forall action | action in plan && WritesConfig()(action)
      ensures KeyOf(action).Some? && KeyOf(action).value in s.used
    {
      PlannedCreation(s, catalog, action);
    }
    ConfigsStay(s, plan);
  }

  /** A creation in the plan that replays an earlier answer is still to be made afterwards. */
  lemma ReplayedPlanDoesNotConverge(s: Store, catalog: Catalog, create: Action)
    requires Valid(s) && WellFormed(catalog) && create in PlanSync(s, catalog)
    requires KeyOf(create).Some? && KeyOf(create).value in s.used && ApplyAll(s, PlanSync(s, catalog)).Some?
    ensures PlanSync(ApplyAll(s, PlanSync(s, catalog)).value, catalog) != []
  {
    var r := ApplyAll(s, PlanSync(s, catalog)).value;
    PlannedCreation(s, catalog, create);
    RunKeepsValid(s, PlanSync(s, catalog));
    NothingPlanned(r, catalog);
    match create
    case CreateProduct(spec) =>
      ReplayedProductIsPlannedAgain(s, catalog, spec);
      assert !ProductInSync(r.products, spec);
    case CreatePrice(spec, _) => ReplayedPriceIsPlannedAgain(s, catalog, spec, create);
    case _ => ReplayedPortalIsPlannedAgain(s, catalog);
  }

  lemma {:induction false} RunKeepsValid(s: Store, actions: seq<Action>)
    requires Valid(s) && ApplyAll(s, actions).Some?
    ensures Valid(ApplyAll(s, actions).value)
    decreases |actions|
  {
    if actions == [] {
    } else {
      ApplyKeepsValid(s, actions[0]);
      RunKeepsValid(Apply(s, actions[0]).value, actions[1..]);
    }
  }

  /** Re-running plans no write exactly when no creation of the first plan replayed an answer the account had
      given before: whatever the account held, and whether or not the portal is included. */
  lemma SecondPlanIsEmptyExactlyWhenKeysAreFresh(s: Store, catalog: Catalog)
    requires Valid(s) && WellFormed(catalog)
    ensures var plan := PlanSync(s, catalog); var r := ApplyAll(s, plan);
            (r.Some? && PlanSync(r.value, catalog) == []) <==> FreshKeys(s, plan)
  {
    var plan := PlanSync(s, catalog);
    if FreshKeys(s, plan) {
      FreshPlanConverges(s, catalog);
    } else if ApplyAll(s, plan).Some? {
      var create :| create in plan && KeyOf(create).Some? && KeyOf(create).value in s.used;
      ReplayedPlanDoesNotConverge(s, catalog, create);
    }
  }

  /** Such accounts exist: one whose product was deleted, while the answer to its creation is still remembered. The
      account accepts the whole plan, and the next one makes the creation again. */
  lemma StaleKeyPlansAgain(product: ProductSpec)
    ensures var portal := map["metadata" := Object(map["managed_by" := Text(MANAGED_BY)])];
            var s := Store(map[], map[], [], {ProductKey(product)}, 0);
            var catalog := Catalog([product], [], portal, false);
            var r := ApplyAll(s, PlanSync(s, catalog));
            && Valid(s) && WellFormed(catalog) && !FreshKeys(s, PlanSync(s, catalog))
            && r == Some(s) && PlanSync(s, catalog) == [CreateProduct(product)]
  {
    var portal := map["metadata" := Object(map["managed_by" := Text(MANAGED_BY)])];
    var s := Store(map[], map[], [], {ProductKey(product)}, 0);
    var catalog := Catalog([product], [], portal, false);
    assert [product][1..] == [] && PlanProducts(s.products, []) == [] && PlanPrices(s.prices, []) == [];
    assert PlanSync(s, catalog) == [CreateProduct(product)];
    ApplyOne(s, CreateProduct(product));
  }

  // ---------------------------------------------------------------- what every write keeps

  /** Lookup keys once held stay held, and the terms of a price are never edited: at every prefix of every list of
      writes. */
  lemma {:induction false} KeysStayHeldAndTermsStand(s: Store, actions: seq<Action>, n: nat)
    requires Valid(s) && n <= |actions| && ApplyAll(s, actions[..n]).Some?
    ensures var r := ApplyAll(s, actions[..n]).value;
            && (forall id, key :: Holds(s.prices, id, key) ==> exists id' :: Holds(r.prices, id', key))
            && (forall id :: id in s.prices ==> id in r.prices && r.prices[id].terms == s.prices[id].terms)
    decreases n
  {
    if n == 0 {
    } else {
      var action, rest := actions[0], actions[1..];
      assert actions[..n][0] == action && actions[..n][1..] == rest[..n - 1];
      var s1 := Apply(s, action).value;
      ApplyKeepsValid(s, action);
      OneWriteKeepsKeys(s, action);
      KeysStayHeldAndTermsStand(s1, rest, n - 1);
    }
  }

  lemma OneWriteKeepsKeys(s: Store, action: Action)
    requires Valid(s) && Apply(s, action).Some?
    ensures var r := Apply(s, action).value;
            && (forall id, key :: Holds(s.prices, id, key) ==> exists id' :: Holds(r.prices, id', key))
            && (forall id :: id in s.prices ==> id in r.prices && r.prices[id].terms == s.prices[id].terms)
  {
    var r := Apply(s, action).value;
    match action
    case CreatePrice(spec, _) =>
      HoldersAfterCreation(s, spec);
      assert r != s ==> Holds(r.prices, Made(s.made), spec.lookupKey);
    case UpdatePrice(id, update) => HoldersAfterUpdate(s, id, update);
    case _ =>
  }
}

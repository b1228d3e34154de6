/** The products, the prices and the portal each converge when the writes planned for them are applied. */
module StripeConvergence {
  import opened Common
  import opened StripeCatalog

  // ---------------------------------------------------------------- the products converge

  /** The product is still as it was when its writes were planned, and its creation is not a replay. */
  predicate ProductAsPlanned(planned: map<string, Product>, s: Store, spec: ProductSpec) {
    && (spec.id in planned <==> spec.id in s.products)
    && (spec.id in planned ==> planned[spec.id] == s.products[spec.id])
    && (spec.id !in planned ==> ProductKey(spec) !in s.used)
  }

  /** Only products were written. */
  predicate OnlyProducts(s: Store, r: Store) {
    && r == s.(products := r.products, used := r.used)
    && s.used <= r.used && forall key :: key in r.used - s.used ==> key.ProductKey?
  }

  predicate SameProduct(s: Store, r: Store, id: string) {
    (id in r.products <==> id in s.products) && (id in s.products ==> r.products[id] == s.products[id])
  }

  lemma ProductStep(planned: map<string, Product>, s: Store, spec: ProductSpec)
    requires ProductAsPlanned(planned, s, spec)
    ensures var r := ApplyAll(s, PlanProduct(planned, spec));
            && r.Some? && ProductInSync(r.value.products, spec) && OnlyProducts(s, r.value)
            && (forall id :: id != spec.id ==> SameProduct(s, r.value, id))
            && r.value.used <= s.used + {ProductKey(spec)}
  {
    var plan := PlanProduct(planned, spec);
    if plan != [] {
      ApplyOne(s, plan[0]);
      assert plan == [plan[0]];
    }
  }

  predicate DistinctProducts(specs: seq<ProductSpec>) {
    forall i, k :: 0 <= i < k < |specs| ==> specs[i].id != specs[k].id
  }

  predicate ProductsInSync(products: map<string, Product>, specs: seq<ProductSpec>) {
    forall k :: 0 <= k < |specs| ==> ProductInSync(products, specs[k])
  }

  /** The products converge, and those outside the catalog stay as they are. */
  lemma {:induction false} ProductsConverge(planned: map<string, Product>, s: Store, specs: seq<ProductSpec>)
    requires DistinctProducts(specs)
    requires forall k :: 0 <= k < |specs| ==> ProductAsPlanned(planned, s, specs[k])
    ensures var r := ApplyAll(s, PlanProducts(planned, specs));
            && r.Some? && ProductsInSync(r.value.products, specs) && OnlyProducts(s, r.value)
            && forall id :: (forall k :: 0 <= k < |specs| ==> specs[k].id != id) ==> SameProduct(s, r.value, id)
    decreases |specs|
  {
    if specs == [] {
    } else {
      var spec, rest := specs[0], specs[1..];
      ProductStep(planned, s, spec);
      ApplyAppend(s, PlanProduct(planned, spec), PlanProducts(planned, rest));
      var s1 := ApplyAll(s, PlanProduct(planned, spec)).value;
      forall k | 0 <= k < |rest|
        ensures ProductAsPlanned(planned, s1, rest[k])
      {
        assert rest[k] == specs[k + 1] && rest[k].id != spec.id;
        assert SameProduct(s, s1, rest[k].id);
      }
      ProductsConverge(planned, s1, rest);
      var r := ApplyAll(s1, PlanProducts(planned, rest)).value;
      assert SameProduct(s1, r, spec.id);
      forall id | forall k :: 0 <= k < |specs| ==> specs[k].id != id
        ensures SameProduct(s, r, id)
      {
        assert specs[0].id != id;
        assert forall k :: 0 <= k < |rest| ==> rest[k] == specs[k + 1];
        assert SameProduct(s, s1, id) && SameProduct(s1, r, id);
      }
      forall k | 0 <= k < |specs|
        ensures ProductInSync(r.products, specs[k])
      {
        assert k > 0 ==> specs[k] == rest[k - 1];
      }
    }
  }

  // ---------------------------------------------------------------- the prices converge

  ghost predicate PriceInSync(prices: map<Id, Price>, spec: PriceSpec) {
    exists id :: Holds(prices, id, spec.lookupKey) && prices[id].terms == spec.terms
      && Drift(prices[id], spec) == NOTHING
  }

  lemma InSyncPlansNothing(prices: map<Id, Price>, spec: PriceSpec)
    requires UniqueHolders(prices)
    ensures PlanPrice(prices, spec) == [] <==> PriceInSync(prices, spec)
  {}

  /** The same prices hold the same lookup key. */
  ghost predicate SameHolder(prices: map<Id, Price>, prices': map<Id, Price>, lookupKey: string) {
    && (forall id :: Holds(prices, id, lookupKey) <==> Holds(prices', id, lookupKey))
    && (forall id :: Holds(prices, id, lookupKey) ==> prices[id] == prices'[id])
  }

  ghost predicate PriceAsPlanned(planned: map<Id, Price>, s: Store, spec: PriceSpec) {
    && SameHolder(planned, s.prices, spec.lookupKey)
    && spec.terms.product in s.products
    && FreshKeys(s, PlanPrice(planned, spec))
  }

  predicate OnlyPrices(s: Store, r: Store) {
    && r == s.(prices := r.prices, used := r.used, made := r.made)
    && s.used <= r.used && forall key :: key in r.used - s.used ==> key.PriceKey?
  }

  lemma CreationStep(s: Store, spec: PriceSpec, replaced: Option<Id>)
    requires Valid(s) && spec.terms.product in s.products && PriceKey(spec, replaced) !in s.used
    requires replaced.None? ==> forall id :: !Holds(s.prices, id, spec.lookupKey)
    ensures var r := Apply(s, CreatePrice(spec, replaced));
            && r.Some? && Valid(r.value) && PriceInSync(r.value.prices, spec) && OnlyPrices(s, r.value)
            && (forall key :: key != spec.lookupKey ==> SameHolder(s.prices, r.value.prices, key))
            && (forall id :: id in s.prices ==> id in r.value.prices)
            && r.value.used == s.used + {PriceKey(spec, replaced)}
  {
    HoldersAfterCreation(s, spec);
    ApplyKeepsValid(s, CreatePrice(spec, replaced));
    assert Holds(WithPrice(s, spec), Made(s.made), spec.lookupKey);
  }

  lemma UpdateStep(s: Store, id: Id, update: PriceUpdate)
    requires Valid(s) && id in s.prices
    ensures var r := Apply(s, UpdatePrice(id, update));
            && r.Some? && Valid(r.value) && r.value == s.(prices := s.prices[id := UpdatedPrice(s.prices[id], update)])
            && forall key :: !Holds(s.prices, id, key) ==> SameHolder(s.prices, r.value.prices, key)
  {
    HoldersAfterUpdate(s, id, update);
    ApplyKeepsValid(s, UpdatePrice(id, update));
  }

  lemma PriceStep(planned: map<Id, Price>, s: Store, spec: PriceSpec)
    requires Valid(s) && UniqueHolders(planned) && PriceAsPlanned(planned, s, spec)
    ensures var r := ApplyAll(s, PlanPrice(planned, spec));
            && r.Some? && Valid(r.value) && PriceInSync(r.value.prices, spec) && OnlyPrices(s, r.value)
            && (forall key :: key != spec.lookupKey ==> SameHolder(s.prices, r.value.prices, key))
            && forall key :: key in r.value.used - s.used ==> key.PriceKey? && key.price == spec
  {
    var plan, found := PlanPrice(planned, spec), Holder(planned, spec.lookupKey);
    if found.None? {
      assert KeyOf(plan[0]) == Some(PriceKey(spec, None));
      CreationStep(s, spec, None);
      ApplyOne(s, CreatePrice(spec, None));
    } else {
      var id := found.value;
      assert Holds(s.prices, id, spec.lookupKey) && s.prices[id] == planned[id];
      if planned[id].terms != spec.terms {
        assert KeyOf(plan[0]) == Some(PriceKey(spec, found));
        CreationStep(s, spec, found);
        ApplyOne(s, CreatePrice(spec, found));
        if planned[id].active {
          var s1 := Apply(s, CreatePrice(spec, found)).value;
          var archive := UpdatePrice(id, PriceUpdate(Some(false), None, None));
          assert s1.prices[id].lookupKey == None;
          UpdateStep(s1, id, archive.update);
          ApplyOne(s1, archive);
          ApplyAppend(s, [CreatePrice(spec, found)], [archive]);
          StaysInSync(s1.prices, Apply(s1, archive).value.prices, spec);
        } else {
          assert plan == [CreatePrice(spec, found)];
        }
      } else if plan != [] {
        UpdateStep(s, id, Drift(planned[id], spec));
        ApplyOne(s, plan[0]);
        DriftIsRepaired(planned[id], spec);
        assert Holds(ApplyAll(s, plan).value.prices, id, spec.lookupKey);
      } else {
        assert Drift(s.prices[id], spec) == NOTHING;
      }
    }
  }

  lemma StaysInSync(prices: map<Id, Price>, prices': map<Id, Price>, spec: PriceSpec)
    requires PriceInSync(prices, spec) && SameHolder(prices, prices', spec.lookupKey)
    ensures PriceInSync(prices', spec)
  {
    var id :| Holds(prices, id, spec.lookupKey) && prices[id].terms == spec.terms && Drift(prices[id], spec) == NOTHING;
    assert Holds(prices', id, spec.lookupKey);
  }

  lemma DriftIsRepaired(price: Price, spec: PriceSpec)
    ensures Drift(UpdatedPrice(price, Drift(price, spec)), spec) == NOTHING
  {}

  predicate DistinctPrices(specs: seq<PriceSpec>) {
    forall i, k :: 0 <= i < k < |specs| ==> specs[i].lookupKey != specs[k].lookupKey
  }

  ghost predicate PricesInSync(prices: map<Id, Price>, specs: seq<PriceSpec>) {
    forall k :: 0 <= k < |specs| ==> PriceInSync(prices, specs[k])
  }

  /** The prices converge, and the holders of lookup keys outside the catalog stay as they are. */
  lemma {:induction false} PricesConverge(planned: map<Id, Price>, s: Store, specs: seq<PriceSpec>)
    requires Valid(s) && UniqueHolders(planned) && DistinctPrices(specs)
    requires forall k :: 0 <= k < |specs| ==> PriceAsPlanned(planned, s, specs[k])
    ensures var r := ApplyAll(s, PlanPrices(planned, specs));
            && r.Some? && Valid(r.value) && PricesInSync(r.value.prices, specs) && OnlyPrices(s, r.value)
            && forall key :: (forall k :: 0 <= k < |specs| ==> specs[k].lookupKey != key) ==>
                 SameHolder(s.prices, r.value.prices, key)
    decreases |specs|
  {
    if specs == [] {
    } else {
      var spec, rest := specs[0], specs[1..];
      PriceStep(planned, s, spec);
      ApplyAppend(s, PlanPrice(planned, spec), PlanPrices(planned, rest));
      var s1 := ApplyAll(s, PlanPrice(planned, spec)).value;
      assert forall k :: 0 <= k < |rest| ==> rest[k] == specs[k + 1];
      forall k | 0 <= k < |rest|
        ensures PriceAsPlanned(planned, s1, rest[k])
      {
        StillAsPlanned(planned, s, s1, spec, rest[k]);
      }
      PricesConverge(planned, s1, rest);
      var r := ApplyAll(s1, PlanPrices(planned, rest)).value;
      StaysInSync(s1.prices, r.prices, spec);
      forall key | forall k :: 0 <= k < |specs| ==> specs[k].lookupKey != key
        ensures SameHolder(s.prices, r.prices, key)
      {
        assert specs[0].lookupKey != key;
        assert SameHolder(s.prices, s1.prices, key) && SameHolder(s1.prices, r.prices, key);
      }
    }
  }

  lemma StillAsPlanned(planned: map<Id, Price>, s: Store, s1: Store, spec: PriceSpec, other: PriceSpec)
    requires PriceAsPlanned(planned, s, other) && other.lookupKey != spec.lookupKey && OnlyPrices(s, s1)
    requires SameHolder(s.prices, s1.prices, other.lookupKey)
    requires forall key :: key in s1.used - s.used ==> key.PriceKey? && key.price == spec
    ensures PriceAsPlanned(planned, s1, other)
  {
    PlanKeys(planned, other);
  }

  /** The plan for a price makes no other idempotency keys than its own. */
  lemma PlanKeys(planned: map<Id, Price>, spec: PriceSpec)
    ensures forall action :: action in PlanPrice(planned, spec) && KeyOf(action).Some? ==>
              KeyOf(action).value.PriceKey? && KeyOf(action).value.price == spec
  {}

  // ---------------------------------------------------------------- what becomes of each price

  function Archived(price: Price): Price {
    price.(lookupKey := None, active := false)
  }

  /** The plan for one price leaves every price alone that does not hold the key, and archives the one it replaces. */
  lemma PriceStepFrame(planned: map<Id, Price>, s: Store, spec: PriceSpec, id: Id)
    requires Valid(s) && UniqueHolders(planned) && PriceAsPlanned(planned, s, spec) && id in s.prices
    ensures var r := ApplyAll(s, PlanPrice(planned, spec));
            && r.Some? && id in r.value.prices
            && (!Holds(s.prices, id, spec.lookupKey) ==> r.value.prices[id] == s.prices[id])
            && (Holds(s.prices, id, spec.lookupKey) && s.prices[id].terms != spec.terms ==>
                  r.value.prices[id] == Archived(s.prices[id]))
  {
    var plan, found := PlanPrice(planned, spec), Holder(planned, spec.lookupKey);
    assert Made(s.made) !in s.prices;
    if found.None? {
      assert plan == [CreatePrice(spec, None)] && KeyOf(plan[0]) == Some(PriceKey(spec, None)) && plan[0] in plan;
      ApplyOne(s, plan[0]);
      CreationStep(s, spec, None);
    } else if planned[found.value].terms != spec.terms {
      ReplacementFrame(planned, s, spec, found.value, id);
    } else if plan != [] {
      ApplyOne(s, plan[0]);
      assert plan == [plan[0]];
    }
  }

  lemma ReplacementFrame(planned: map<Id, Price>, s: Store, spec: PriceSpec, former: Id, id: Id)
    requires Valid(s) && UniqueHolders(planned) && PriceAsPlanned(planned, s, spec) && id in s.prices
    requires Holder(planned, spec.lookupKey) == Some(former) && planned[former].terms != spec.terms
    ensures var r := ApplyAll(s, PlanPrice(planned, spec));
            && r.Some? && id in r.value.prices
            && r.value.prices[id] == if id == former then Archived(s.prices[id]) else s.prices[id]
  {
    var plan, create := PlanPrice(planned, spec), CreatePrice(spec, Some(former));
    assert Made(s.made) !in s.prices && Holds(s.prices, former, spec.lookupKey);
    assert plan[0] == create && create in plan && KeyOf(create) == Some(PriceKey(spec, Some(former)));
    CreationStep(s, spec, Some(former));
    ApplyOne(s, create);
    var s1 := Apply(s, create).value;
    assert planned[former] == s.prices[former];
    assert s1.prices == WithPrice(s, spec);
    assert id != former ==> !Holds(s.prices, id, spec.lookupKey);
    assert id != Made(s.made);
    assert id != former ==> s1.prices[id] == s.prices[id];
    assert s1.prices[former] == s.prices[former].(lookupKey := None);
    if planned[former].active {
      var archive := UpdatePrice(former, PriceUpdate(Some(false), None, None));
      ApplyOne(s1, archive);
      ApplyAppend(s, [create], [archive]);
    } else {
      assert plan == [create];
    }
  }

  /** A price that holds no key of the catalog is left alone. */
  lemma {:induction false} OtherPricesStay(planned: map<Id, Price>, s: Store, specs: seq<PriceSpec>, id: Id)
    requires Valid(s) && UniqueHolders(planned) && DistinctPrices(specs) && id in s.prices
    requires forall k :: 0 <= k < |specs| ==> PriceAsPlanned(planned, s, specs[k])
    requires forall k :: 0 <= k < |specs| ==> !Holds(s.prices, id, specs[k].lookupKey)
    ensures var r := ApplyAll(s, PlanPrices(planned, specs));
            r.Some? && id in r.value.prices && r.value.prices[id] == s.prices[id]
    decreases |specs|
  {
    if specs == [] {
    } else {
      var s1 := FirstStep(planned, s, specs);
      PriceStepFrame(planned, s, specs[0], id);
      OtherPricesStay(planned, s1, specs[1..], id);
    }
  }

  lemma FirstStep(planned: map<Id, Price>, s: Store, specs: seq<PriceSpec>) returns (s1: Store)
    requires Valid(s) && UniqueHolders(planned) && DistinctPrices(specs) && specs != []
    requires forall k :: 0 <= k < |specs| ==> PriceAsPlanned(planned, s, specs[k])
    ensures ApplyAll(s, PlanPrice(planned, specs[0])) == Some(s1) && Valid(s1)
    ensures ApplyAll(s, PlanPrices(planned, specs)) == ApplyAll(s1, PlanPrices(planned, specs[1..]))
    ensures forall k :: 1 <= k < |specs| ==> PriceAsPlanned(planned, s1, specs[k])
  {
    PriceStep(planned, s, specs[0]);
    ApplyAppend(s, PlanPrice(planned, specs[0]), PlanPrices(planned, specs[1..]));
    s1 := ApplyAll(s, PlanPrice(planned, specs[0])).value;
    forall k | 1 <= k < |specs|
      ensures PriceAsPlanned(planned, s1, specs[k])
    {
      StillAsPlanned(planned, s, s1, specs[0], specs[k]);
    }
  }

  /** A price whose amounts differ from the catalog ends without its key and archived; nothing else in it is edited. */
  lemma {:induction false} ReplacedPriceIsArchived(planned: map<Id, Price>, s: Store, specs: seq<PriceSpec>, k: nat,
                                                   id: Id)
    requires Valid(s) && UniqueHolders(planned) && DistinctPrices(specs) && k < |specs|
    requires forall i :: 0 <= i < |specs| ==> PriceAsPlanned(planned, s, specs[i])
    requires Holds(s.prices, id, specs[k].lookupKey) && s.prices[id].terms != specs[k].terms
    ensures var r := ApplyAll(s, PlanPrices(planned, specs));
            r.Some? && id in r.value.prices && r.value.prices[id] == Archived(s.prices[id])
    decreases |specs|
  {
    var s1 := FirstStep(planned, s, specs);
    PriceStepFrame(planned, s, specs[0], id);
    if k == 0 {
      OtherPricesStay(planned, s1, specs[1..], id);
    } else {
      ReplacedPriceIsArchived(planned, s1, specs[1..], k - 1, id);
    }
  }

  // ---------------------------------------------------------------- the portal converges

  lemma {:induction false} FirstManagedMeaning(configs: seq<Config>)
    ensures FirstManaged(configs).Some? ==>
              IsManaged(FirstManaged(configs).value) && FirstManaged(configs).value in configs
    ensures FirstDefault(configs).Some? ==> FirstDefault(configs).value in configs
    ensures FirstManaged(configs).None? ==> forall k :: 0 <= k < |configs| ==> !IsManaged(configs[k])
    decreases |configs|
  {
    if configs == [] {
    } else {
      FirstManagedMeaning(configs[1..]);
      assert configs == [configs[0]] + configs[1..];
    }
  }

  lemma MergeMatches(fields: Fields, portal: Fields)
    requires IsTagged(portal)
    ensures var merged := MergedFields(fields, portal["active" := Flag(true)]);
            && SubsetMatches(Object(portal), Object(merged)) && merged["active"] == Flag(true)
            && GetField(GetField(Object(merged), "metadata"), "managed_by") == Text(MANAGED_BY)
  {
    var params := portal["active" := Flag(true)];
    var merged := MergedFields(fields, params);
    forall key | key in portal
      ensures SubsetMatches(portal[key], GetField(Object(merged), key))
    {
      MatchesItself(portal[key]);
      if key == "metadata" && "metadata" in fields && fields["metadata"].Object? {
        MatchesLarger(portal["metadata"].fields, fields["metadata"].fields + portal["metadata"].fields);
      }
    }
  }

  /** After the update of the configuration that was the target, it is the target again, and in sync. */
  lemma {:induction false} UpdatedIsTarget(configs: seq<Config>, portal: Fields, id: Id)
    requires IsTagged(portal) && Target(configs).Some? && Target(configs).value.id == id
    requires forall i, k :: 0 <= i < k < |configs| ==> configs[i].id != configs[k].id
    ensures var updated := FirstManaged(UpdatedConfigs(configs, id, portal["active" := Flag(true)]));
            updated.Some? && ConfigInSync(updated.value, portal)
    decreases |configs|
  {
    var params := portal["active" := Flag(true)];
    MergeMatches(configs[0].fields, portal);
    FirstManagedMeaning(configs);
    if configs[0].id != id {
      assert Target(configs[1..]) == Target(configs);
      UpdatedIsTarget(configs[1..], portal, id);
      assert !IsManaged(configs[0]);
    }
  }

  lemma CreatedPortalConverges(s: Store, portal: Fields)
    requires IsTagged(portal) && Target(s.configs).None? && PortalKey(portal) !in s.used
    ensures var r := Apply(s, CreateConfig(portal));
            r.Some? && r.value == s.(configs := r.value.configs, used := r.value.used, made := r.value.made)
            && PlanPortal(r.value.configs, portal) == []
  {
    var fields := map["active" := Flag(true)] + portal;
    MatchesLarger(portal, fields);
    var config := Config(Made(s.made), false, fields);
    assert IsManaged(config) && ConfigInSync(config, portal);
  }

  lemma UpdatedPortalConverges(s: Store, portal: Fields, id: Id)
    requires Valid(s) && IsTagged(portal) && Target(s.configs).Some? && Target(s.configs).value.id == id
    ensures var r := Apply(s, UpdateConfig(id, portal["active" := Flag(true)]));
            r.Some? && r.value == s.(configs := r.value.configs) && PlanPortal(r.value.configs, portal) == []
  {
    FirstManagedMeaning(s.configs);
    var k :| 0 <= k < |s.configs| && s.configs[k] == Target(s.configs).value;
    assert HasConfig(s.configs, id);
    UpdatedIsTarget(s.configs, portal, id);
  }

  lemma PortalConverges(s: Store, portal: Fields)
    requires Valid(s) && IsTagged(portal) && FreshKeys(s, PlanPortal(s.configs, portal))
    ensures var r := ApplyAll(s, PlanPortal(s.configs, portal));
            r.Some? && r.value == s.(configs := r.value.configs, used := r.value.used, made := r.value.made)
            && PlanPortal(r.value.configs, portal) == []
  {
    var plan := PlanPortal(s.configs, portal);
    if plan != [] {
      ApplyOne(s, plan[0]);
      assert plan == [plan[0]] && plan[0] in plan;
      if Target(s.configs).None? {
        assert KeyOf(plan[0]) == Some(PortalKey(portal));
        CreatedPortalConverges(s, portal);
      } else {
        UpdatedPortalConverges(s, portal, Target(s.configs).value.id);
      }
    }
  }
}

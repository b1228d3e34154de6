/** The loops of the catalog script around a client: listing, planning and writing
    (backend/scripts/stripe_sync_catalog.py).
  */
module StripeClient {
  import opened Common
  import opened StripeCatalog

  // ---------------------------------------------------------------- listing

  /** What a list call answers: the objects after the cursor, up to a page, and whether more follow. */
  datatype ListPage<T> = ListPage(data: seq<T>, hasMore: bool)

  predicate DistinctIds<T>(listing: seq<(Id, T)>) {
    forall i, k :: 0 <= i < k < |listing| ==> listing[i].0 != listing[k].0
  }

  /** How many objects a cursor leaves behind. */
  function Behind<T>(listing: seq<(Id, T)>, cursor: Id): nat {
    if listing == [] then 0 else if listing[0].0 == cursor then 1 else 1 + Behind(listing[1..], cursor)
  }

  function ServePage<T>(listing: seq<(Id, T)>, startingAfter: Option<Id>, size: nat): ListPage<(Id, T)> {
    var from := if startingAfter.None? then 0 else Behind(listing, startingAfter.value);
    var rest := if from <= |listing| then listing[from..] else [];
    if |rest| <= size then ListPage(rest, false) else ListPage(rest[..size], true)
  }

  lemma {:induction false} BehindIsNext<T>(listing: seq<(Id, T)>, k: nat)
    requires DistinctIds(listing) && k < |listing|
    ensures Behind(listing, listing[k].0) == k + 1
    decreases |listing|
  {
    if k == 0 {
    } else {
      assert listing[1..][k - 1] == listing[k];
      BehindIsNext(listing[1..], k - 1);
    }
  }

  /** After `n` objects, a page brings the next ones, and says whether any are left. */
  lemma PageFollows<T>(listing: seq<(Id, T)>, n: nat, size: nat)
    requires DistinctIds(listing) && n <= |listing| && size >= 1
    ensures var page := ServePage(listing, if n == 0 then None else Some(listing[n - 1].0), size);
            var m := n + |page.data|;
            && m <= |listing| && page.data == listing[n..m] && page.hasMore == (m < |listing|)
            && (page.hasMore ==> page.data != [])
  {
    if n > 0 {
      BehindIsNext(listing, n - 1);
    }
  }

  /** Follows the pages, whatever their sizes, and gets every object once and in order. */
  method IterList<T>(listing: seq<(Id, T)>) returns (all: seq<(Id, T)>)
    requires DistinctIds(listing)
    ensures all == listing
  {
    all := [];
    var startingAfter: Option<Id> := None;
    while true
      invariant |all| <= |listing| && all == listing[..|all|]
      invariant startingAfter == if all == [] then None else Some(listing[|all| - 1].0)
      decreases |listing| - |all|
    {
      var size: nat :| size >= 1;
      var page := ServePage(listing, startingAfter, size);
      PageFollows(listing, |all|, size);
      assert listing[..|all|] + page.data == listing[..|all| + |page.data|];
      all := all + page.data;
      if !page.hasMore || page.data == [] {
        return;
      }
      startingAfter := Some(page.data[|page.data| - 1].0);
    }
  }

  // ---------------------------------------------------------------- the planning loops

  predicate ListsProduct(entry: (Id, Product), products: map<string, Product>, ids: set<string>) {
    entry.0.Named? && entry.0.name in ids && entry.0.name in products && products[entry.0.name] == entry.1
  }

  /** The listing of a query has exactly the objects the query asks for, in any order. */
  ghost predicate ListsProducts(listing: seq<(Id, Product)>, products: map<string, Product>, ids: set<string>) {
    && DistinctIds(listing)
    && (forall k :: 0 <= k < |listing| ==> ListsProduct(listing[k], products, ids))
    && (forall id :: id in ids && id in products ==> exists k :: 0 <= k < |listing| && listing[k].0 == Named(id))
  }

  method FindProducts(products: map<string, Product>, listing: seq<(Id, Product)>, ghost ids: set<string>)
    returns (existing: map<Id, Product>)
    requires ListsProducts(listing, products, ids)
    ensures forall id :: id in ids ==>
              && (Named(id) in existing <==> id in products)
              && (id in products ==> existing[Named(id)] == products[id])
  {
    var listed := IterList(listing);
    existing := map[];
    for k := 0 to |listed|
      invariant forall id :: id in existing ==> ListsProduct((id, existing[id]), products, ids)
      invariant forall i :: 0 <= i < k ==> listed[i].0 in existing
    {
      assert ListsProduct(listed[k], products, ids);
      existing := existing[listed[k].0 := listed[k].1];
    }
  }

  lemma PlanTail(products: map<string, Product>, specs: seq<ProductSpec>, k: nat)
    requires k < |specs|
    ensures PlanProducts(products, specs[k..]) ==
            PlanProduct(products, specs[k]) + PlanProducts(products, specs[k + 1..])
  {
    assert specs[k..][0] == specs[k] && specs[k..][1..] == specs[k + 1..];
  }

  predicate ProductsPlanned(products: map<string, Product>, specs: seq<ProductSpec>, actions: seq<Action>, k: nat) {
    k <= |specs| && actions + PlanProducts(products, specs[k..]) == PlanProducts(products, specs)
  }

  lemma PlanNextProduct(products: map<string, Product>, specs: seq<ProductSpec>, actions: seq<Action>, k: nat)
    requires k < |specs| && ProductsPlanned(products, specs, actions, k)
    ensures ProductsPlanned(products, specs, actions + PlanProduct(products, specs[k]), k + 1)
  {
    PlanTail(products, specs, k);
    var planned, rest := PlanProduct(products, specs[k]), PlanProducts(products, specs[k + 1..]);
    assert actions + (planned + rest) == actions + planned + rest;
  }

  lemma ProductsFromEndToEnd(products: map<string, Product>, specs: seq<ProductSpec>, actions: seq<Action>)
    ensures ProductsPlanned(products, specs, [], 0)
    ensures ProductsPlanned(products, specs, actions, |specs|) ==> actions == PlanProducts(products, specs)
  {
    assert specs[0..] == specs && [] + PlanProducts(products, specs) == PlanProducts(products, specs);
    assert actions + [] == actions;
  }

  method PlanProductWrites(products: map<string, Product>, listing: seq<(Id, Product)>, specs: seq<ProductSpec>)
    returns (actions: seq<Action>)
    requires ListsProducts(listing, products, set k | 0 <= k < |specs| :: specs[k].id)
    ensures actions == PlanProducts(products, specs)
  {
    var existing := FindProducts(products, listing, set k | 0 <= k < |specs| :: specs[k].id);
    ProductsFromEndToEnd(products, specs, []);
    actions := [];
    for k := 0 to |specs|
      invariant ProductsPlanned(products, specs, actions, k)
    {
      var spec := specs[k];
      PlanNextProduct(products, specs, actions, k);
      actions := actions + PlanFoundProduct(spec, if Named(spec.id) in existing then Some(existing[Named(spec.id)])
                                            else None);
    }
    ProductsFromEndToEnd(products, specs, actions);
  }

  predicate ListsPrice(entry: (Id, Price), prices: map<Id, Price>) {
    Holds(prices, entry.0, LookupKeyOf(entry.1)) && prices[entry.0] == entry.1
  }

  /** The listing of a query for lookup keys: the prices that hold one of them. */
  ghost predicate ListsPrices(listing: seq<(Id, Price)>, prices: map<Id, Price>, keys: seq<string>) {
    && DistinctIds(listing)
    && (forall k :: 0 <= k < |listing| ==> ListsPrice(listing[k], prices) && LookupKeyOf(listing[k].1) in keys)
    && (forall id, key :: key in keys && Holds(prices, id, key) ==>
        exists k :: 0 <= k < |listing| && listing[k].0 == id)
  }

  function LookupKeyOf(price: Price): string {
    if price.lookupKey.Some? then price.lookupKey.value else ""
  }

  type Found = map<string, (Id, Price)>

  predicate IsFound(existing: Found, prices: map<Id, Price>, key: string)
    requires key in existing
  {
    Holds(prices, existing[key].0, key) && prices[existing[key].0] == existing[key].1
  }

  /** The prices found so far are the holders of the keys asked for so far. */
  ghost predicate FoundFor(existing: Found, prices: map<Id, Price>, keys: set<string>) {
    && (forall key :: key in existing ==> key in keys && IsFound(existing, prices, key))
    && (forall id, key :: key in keys && Holds(prices, id, key) ==> key in existing)
  }

  /** One batch of at most ten lookup keys. */
  method FindBatch(prices: map<Id, Price>, listing: seq<(Id, Price)>, keys: seq<string>, existing: Found,
                   ghost asked: set<string>)
    returns (existing': Found)
    requires UniqueHolders(prices) && ListsPrices(listing, prices, keys) && FoundFor(existing, prices, asked)
    ensures FoundFor(existing', prices, asked + set key | key in keys)
  {
    var listed := IterList(listing);
    existing' := existing;
    for k := 0 to |listed|
      invariant existing.Keys <= existing'.Keys
      invariant forall i :: 0 <= i < k ==> LookupKeyOf(listed[i].1) in existing'
      invariant forall key :: key in existing' ==> (key in asked || key in keys) && IsFound(existing', prices, key)
    {
      assert ListsPrice(listed[k], prices);
      existing' := existing'[LookupKeyOf(listed[k].1) := listed[k]];
    }
    forall id, key | key in keys && Holds(prices, id, key)
      ensures key in existing'
    {
      var k :| 0 <= k < |listed| && listed[k].0 == id;
      assert LookupKeyOf(listed[k].1) == key;
    }
  }

  function Slice<T>(s: seq<T>, from: nat, to: nat): seq<T>
    requires from <= to
  {
    if |s| <= from then [] else s[from..if to <= |s| then to else |s|]
  }

  lemma PlanPriceTail(prices: map<Id, Price>, specs: seq<PriceSpec>, k: nat)
    requires k < |specs|
    ensures PlanPrices(prices, specs[k..]) == PlanPrice(prices, specs[k]) + PlanPrices(prices, specs[k + 1..])
  {
    assert specs[k..][0] == specs[k] && specs[k..][1..] == specs[k + 1..];
  }

  lemma FoundIsHolder(existing: Found, prices: map<Id, Price>, keys: set<string>, spec: PriceSpec)
    requires UniqueHolders(prices) && FoundFor(existing, prices, keys) && spec.lookupKey in keys
    ensures PlanPrice(prices, spec) ==
            PlanFoundPrice(spec, if spec.lookupKey in existing then Some(existing[spec.lookupKey]) else None)
  {
    var key := spec.lookupKey;
    if key in existing {
      assert IsFound(existing, prices, key);
      assert Holder(prices, key) == Some(existing[key].0);
    }
  }

  /** The answers to the queries, one for each batch of ten keys. */
  ghost predicate AnswerBatches(answers: seq<seq<(Id, Price)>>, prices: map<Id, Price>, keys: seq<string>) {
    && |keys| <= 10 * |answers|
    && forall b :: 0 <= b < |answers| ==> ListsPrices(answers[b], prices, Slice(keys, 10 * b, 10 * b + 10))
  }

  method FindPrices(prices: map<Id, Price>, answers: seq<seq<(Id, Price)>>, keys: seq<string>) returns (existing: Found)
    requires UniqueHolders(prices) && AnswerBatches(answers, prices, keys)
    ensures FoundFor(existing, prices, set key | key in keys)
  {
    existing := map[];
    ghost var asked: set<string> := {};
    var batches := 0;
    while 10 * batches < |keys|
      invariant 0 <= batches <= |answers|
      invariant FoundFor(existing, prices, asked) && asked <= set key | key in keys
      invariant forall k :: 0 <= k < |keys| && k < 10 * batches ==> keys[k] in asked
      decreases |keys| - 10 * batches
    {
      var start := 10 * batches;
      var batch := Slice(keys, start, start + 10);
      existing := FindBatch(prices, answers[batches], batch, existing, asked);
      assert forall k :: start <= k < |keys| && k < start + 10 ==> batch[k - start] == keys[k];
      assert forall k :: 0 <= k < |batch| ==> batch[k] == keys[start + k];
      asked := asked + set key | key in batch;
      batches := batches + 1;
    }
    assert asked == set key | key in keys;
  }

  function LookupKeys(specs: seq<PriceSpec>): (keys: seq<string>)
    ensures |keys| == |specs| && forall k :: 0 <= k < |specs| ==> keys[k] == specs[k].lookupKey
  {
    seq(|specs|, k requires 0 <= k < |specs| => specs[k].lookupKey)
  }

  ghost predicate PricesPlanned(prices: map<Id, Price>, specs: seq<PriceSpec>, actions: seq<Action>, k: nat) {
    k <= |specs| && actions + PlanPrices(prices, specs[k..]) == PlanPrices(prices, specs)
  }

  lemma PlanNextPrice(prices: map<Id, Price>, specs: seq<PriceSpec>, actions: seq<Action>, k: nat, planned: seq<Action>)
    requires k < |specs| && PricesPlanned(prices, specs, actions, k) && planned == PlanPrice(prices, specs[k])
    ensures PricesPlanned(prices, specs, actions + planned, k + 1)
  {
    PlanPriceTail(prices, specs, k);
    var rest := PlanPrices(prices, specs[k + 1..]);
    assert actions + (planned + rest) == actions + planned + rest;
  }

  lemma PlannedFromEndToEnd(prices: map<Id, Price>, specs: seq<PriceSpec>, actions: seq<Action>)
    ensures PricesPlanned(prices, specs, [], 0)
    ensures PricesPlanned(prices, specs, actions, |specs|) ==> actions == PlanPrices(prices, specs)
  {
    assert specs[0..] == specs && [] + PlanPrices(prices, specs) == PlanPrices(prices, specs);
    assert actions + [] == actions;
  }

  method PlanPriceWrites(prices: map<Id, Price>, answers: seq<seq<(Id, Price)>>, specs: seq<PriceSpec>)
    returns (actions: seq<Action>)
    requires UniqueHolders(prices) && AnswerBatches(answers, prices, LookupKeys(specs))
    ensures actions == PlanPrices(prices, specs)
  {
    var keys := LookupKeys(specs);
    var existing := FindPrices(prices, answers, keys);
    PlannedFromEndToEnd(prices, specs, []);
    actions := [];
    for k := 0 to |specs|
      invariant PricesPlanned(prices, specs, actions, k)
    {
      var spec := specs[k];
      assert keys[k] == spec.lookupKey;
      FoundIsHolder(existing, prices, (set key | key in keys), spec);
      var planned := PlanFoundPrice(spec, if spec.lookupKey in existing then Some(existing[spec.lookupKey]) else None);
      PlanNextPrice(prices, specs, actions, k, planned);
      actions := actions + planned;
    }
    PlannedFromEndToEnd(prices, specs, actions);
  }

  // ---------------------------------------------------------------- writing

  class Client {
    var store: Store

    constructor (store: Store)
      ensures this.store == store
    {
      this.store := store;
    }

    /** One create or update; false if the account refuses it. */
    method Write(action: Action) returns (accepted: bool)
      modifies this
      ensures accepted <==> Apply(old(store), action).Some?
      ensures store == if accepted then Apply(old(store), action).value else old(store)
    {
      var next := Apply(store, action);
      accepted := next.Some?;
      if accepted {
        store := next.value;
      }
    }

    /** Stops at the first refusal, with the writes before it done. */
    method ApplyActions(actions: seq<Action>) returns (written: nat)
      modifies this
      ensures written <= |actions| && ApplyAll(old(store), actions[..written]) == Some(store)
      ensures written == |actions| <==> ApplyAll(old(store), actions).Some?
    {
      written := 0;
      assert actions[0..] == actions;
      while written < |actions|
        invariant written <= |actions| && ApplyAll(old(store), actions[..written]) == Some(store)
      {
        ApplyAppend(old(store), actions[..written], actions[written..]);
        assert actions == actions[..written] + actions[written..];
        var accepted := Write(actions[written]);
        if !accepted {
          return;
        }
        ApplyAppend(old(store), actions[..written], [actions[written]]);
        assert actions[..written + 1] == actions[..written] + [actions[written]];
        written := written + 1;
      }
      assert actions[..|actions|] == actions;
    }
  }
}

/** The progressive library pager (frontend/app/library-view-logic.ts).

    `load` and `refresh` suspend at every page request, so a run is a sequence of calls, page
    arrivals and failures in any order. `Step` gives the effect of one such event. The class
    keeps the fields of the original and each of its methods is proved to perform one `Step`.
    Suspended operations are identified by the abort controller they created.
  */
module LibraryPaging {
  import opened Common

  const BATCH_SIZE := 50

  datatype Item = Item(id: string, content: string)

  datatype Page = Page(items: seq<Item>, pages: Option<int>)

  /** Whether page number `number` announces another one. */
  predicate More(number: int, page: Page) {
    page.items != [] && (match page.pages case Some(last) => number < last case None => |page.items| >= BATCH_SIZE)
  }

  // ---------------------------------------------------------------- the insertion-ordered map of items

  /** A JavaScript Map keyed by item id: an existing key keeps its place, a new one goes last. */
  function Put(unique: seq<Item>, item: Item): seq<Item> {
    if unique == [] then [item]
    else if unique[0].id == item.id then [item] + unique[1..]
    else [unique[0]] + Put(unique[1..], item)
  }

  function PutAll(unique: seq<Item>, items: seq<Item>): seq<Item>
    decreases |items|
  {
    if items == [] then unique else PutAll(Put(unique, items[0]), items[1..])
  }

  /** The list shown after the given pages: one entry per id. */
  function Merge(pages: seq<Page>): seq<Item> {
    PutAll([], AllItems(pages))
  }

  function AllItems(pages: seq<Page>): seq<Item> {
    if pages == [] then [] else AllItems(pages[..|pages| - 1]) + pages[|pages| - 1].items
  }

  // ---------------------------------------------------------------- state and events

  datatype LoadState = LoadState(items: seq<Item>, nextPage: int, hasMore: bool, loading: bool, error: Option<string>)

  const INITIAL := LoadState([], 1, true, false, None)

  /** An operation waiting for page `page`; `got` is the history of the pages it has received. */
  datatype Operation =
    | Loading(generation: nat, page: int)
    | Refreshing(generation: nat, page: int, lastPage: int, unique: seq<Item>, got: seq<Page>)

  /** The pager, its suspended operations and aborted controllers; `fetched` is the history of the pages shown. */
  datatype Pager = Pager(
    state: LoadState,
    controller: Option<nat>,
    generation: nat,
    retryRefresh: bool,
    published: Option<LoadState>,
    inFlight: map<nat, Operation>,
    aborted: set<nat>,
    controllers: nat,
    fetched: seq<Page>)

  const NEW := Pager(INITIAL, None, 0, false, None, map[], {}, 0, [])

  datatype Event =
    | LoadCalled
    | RefreshCalled
    | ResetCalled
    | Arrived(operation: nat, page: Page)
    | Failed(operation: nat, reason: string)

  function Publish(p: Pager, state: LoadState): Pager {
    p.(state := state, published := Some(state))
  }

  function Begin(p: Pager, operation: Operation): Pager {
    Publish(p, p.state.(loading := true, error := None))
      .(controller := Some(p.controllers), controllers := p.controllers + 1,
        inFlight := p.inFlight[p.controllers := operation])
  }

  function AfterRefresh(p: Pager): Pager {
    if p.state.loading then p
    else Begin(p, Refreshing(p.generation, 1, Max(1, p.state.nextPage - 1), [], []))
  }

  function AfterLoad(p: Pager): Pager {
    if p.retryRefresh then AfterRefresh(p)
    else if p.state.loading || !p.state.hasMore then p
    else Begin(p, Loading(p.generation, p.state.nextPage))
  }

  function AfterReset(p: Pager): Pager {
    Publish(p, INITIAL)
      .(generation := p.generation + 1, retryRefresh := false, fetched := [],
        aborted := p.aborted + (match p.controller case Some(c) => {c} case None => {}))
  }

  predicate Stale(p: Pager, c: nat)
    requires c in p.inFlight
  {
    p.inFlight[c].generation != p.generation || c in p.aborted
  }

  function AfterArrival(p: Pager, c: nat, page: Page): Pager
    requires c in p.inFlight
  {
    var operation := p.inFlight[c];
    var rest := p.(inFlight := p.inFlight - {c});
    if Stale(p, c) then rest
    else
      match operation
      case Loading(_, number) =>
        Publish(rest, LoadState(PutAll(p.state.items, page.items), number + 1, More(number, page), false, None))
          .(fetched := p.fetched + [page])
      case Refreshing(_, number, lastPage, unique, got) =>
        var unique' := PutAll(unique, page.items);
        if number + 1 <= lastPage && More(number, page) then
          p.(inFlight := p.inFlight[c := operation.(page := number + 1, unique := unique', got := got + [page])])
        else
          Publish(rest, LoadState(unique', number + 1, More(number, page), false, None))
            .(retryRefresh := false, fetched := got + [page])
  }

  function AfterFailure(p: Pager, c: nat, reason: string): Pager
    requires c in p.inFlight
  {
    var rest := p.(inFlight := p.inFlight - {c});
    if Stale(p, c) then rest
    else
      Publish(rest, p.state.(loading := false, error := Some(reason)))
        .(retryRefresh := p.retryRefresh || p.inFlight[c].Refreshing?)
  }

  /** One event; answers for operations that are not waiting do not exist and change nothing. */
  function Step(p: Pager, e: Event): Pager {
    match e
    case LoadCalled => AfterLoad(p)
    case RefreshCalled => AfterRefresh(p)
    case ResetCalled => AfterReset(p)
    case Arrived(c, page) => if c in p.inFlight then AfterArrival(p, c, page) else p
    case Failed(c, reason) => if c in p.inFlight then AfterFailure(p, c, reason) else p
  }

  function Run(p: Pager, events: seq<Event>): Pager
    decreases |events|
  {
    if events == [] then p else Run(Step(p, events[0]), events[1..])
  }

  // ---------------------------------------------------------------- what every event keeps

  /** Every page but the last announced another one. */
  predicate Consecutive(pages: seq<Page>) {
    forall k :: 0 <= k < |pages| - 1 ==> More(k + 1, pages[k])
  }

  predicate EndsWithMore(pages: seq<Page>) {
    pages == [] || More(|pages|, pages[|pages| - 1])
  }

  /** The visible list is the merge of pages 1 to nextPage - 1. */
  predicate Shows(p: Pager) {
    && p.state.nextPage == |p.fetched| + 1
    && p.state.items == Merge(p.fetched)
    && Consecutive(p.fetched)
    && p.state.hasMore == EndsWithMore(p.fetched)
  }

  /** Where an operation of the current generation stands. */
  predicate OnTrack(p: Pager, operation: Operation) {
    match operation
    case Loading(_, page) => page == p.state.nextPage && p.state.hasMore && !p.retryRefresh
    case Refreshing(_, page, lastPage, unique, got) =>
      && lastPage == Max(1, p.state.nextPage - 1)
      && 1 <= page <= lastPage
      && |got| == page - 1
      && unique == Merge(got)
      && Consecutive(got) && EndsWithMore(got)
  }

  predicate Current(p: Pager, c: nat) {
    c in p.inFlight && p.inFlight[c].generation == p.generation
  }

  ghost predicate Valid(p: Pager) {
    && Shows(p)
    && (forall c :: c in p.inFlight ==> c < p.controllers && p.inFlight[c].generation <= p.generation)
    && (forall c :: c in p.aborted ==> c < p.controllers)
    && (forall c :: Current(p, c) ==> p.controller == Some(c) && c !in p.aborted && OnTrack(p, p.inFlight[c]))
    && (p.controller.Some? ==> p.controller.value < p.controllers)
    && (p.state.loading <==> p.controller.Some? && Current(p, p.controller.value))
    && (p.published == Some(p.state) || (p.published == None && p.state == INITIAL))
  }

  lemma {:induction false} PutAllAppend(unique: seq<Item>, xs: seq<Item>, ys: seq<Item>)
    ensures PutAll(unique, xs + ys) == PutAll(PutAll(unique, xs), ys)
    decreases |xs|
  {
    if xs == [] {
      assert xs + ys == ys;
    } else {
      assert (xs + ys)[1..] == xs[1..] + ys;
      PutAllAppend(Put(unique, xs[0]), xs[1..], ys);
    }
  }

  lemma MergeOneMore(pages: seq<Page>, page: Page)
    ensures Merge(pages + [page]) == PutAll(Merge(pages), page.items)
  {
    assert (pages + [page])[..|pages|] == pages;
    PutAllAppend([], AllItems(pages), page.items);
  }

  lemma BeginKeepsValid(p: Pager, operation: Operation)
    requires Valid(p) && !p.state.loading && operation.generation == p.generation && OnTrack(p, operation)
    ensures Valid(Begin(p, operation))
  {
    var q := Begin(p, operation);
    forall c | Current(q, c)
      ensures c == p.controllers && OnTrack(q, operation)
    {
      if c != p.controllers {
        assert Current(p, c);
      }
    }
  }

  lemma ResetKeepsValid(p: Pager)
    requires Valid(p)
    ensures Valid(AfterReset(p))
  {
    assert forall c :: !Current(AfterReset(p), c);
  }

  /** Leaving an operation that is not the current one behind. */
  lemma DropKeepsValid(p: Pager, c: nat)
    requires Valid(p) && c in p.inFlight && !Current(p, c)
    ensures Valid(p.(inFlight := p.inFlight - {c}))
  {
    var q := p.(inFlight := p.inFlight - {c});
    assert forall d :: Current(q, d) <==> Current(p, d);
    assert forall d :: Current(q, d) ==> OnTrack(q, q.inFlight[d]);
  }

  /** The current operation ends and publishes. */
  lemma EndKeepsValid(p: Pager, c: nat, q: Pager)
    requires Valid(p) && Current(p, c) && Shows(q)
    requires q.inFlight == p.inFlight - {c} && q.generation == p.generation && q.aborted == p.aborted
    requires q.controller == p.controller && q.controllers == p.controllers
    requires !q.state.loading && q.published == Some(q.state)
    ensures Valid(q)
  {
    forall d ensures !Current(q, d) {
      if Current(q, d) {
        assert Current(p, d);
      }
    }
  }

  /** The current operation goes on to its next page. */
  lemma ContinueKeepsValid(p: Pager, c: nat, operation: Operation)
    requires Valid(p) && Current(p, c) && operation.generation == p.generation && OnTrack(p, operation)
    ensures Valid(p.(inFlight := p.inFlight[c := operation]))
  {
    var q := p.(inFlight := p.inFlight[c := operation]);
    forall d | Current(q, d)
      ensures d == c
    {
      if d != c {
        assert Current(p, d);
      }
    }
  }

  lemma ExtendPages(pages: seq<Page>, page: Page)
    requires Consecutive(pages) && EndsWithMore(pages)
    ensures Consecutive(pages + [page]) && EndsWithMore(pages + [page]) == More(|pages| + 1, page)
    ensures Merge(pages + [page]) == PutAll(Merge(pages), page.items)
  {
    MergeOneMore(pages, page);
  }

  lemma LoadedKeepsValid(p: Pager, c: nat, page: Page)
    requires Valid(p) && Current(p, c) && p.inFlight[c].Loading?
    ensures Valid(AfterArrival(p, c, page))
  {
    ExtendPages(p.fetched, page);
    EndKeepsValid(p, c, AfterArrival(p, c, page));
  }

  lemma RefreshedKeepsValid(p: Pager, c: nat, page: Page)
    requires Valid(p) && Current(p, c) && p.inFlight[c].Refreshing?
    ensures Valid(AfterArrival(p, c, page))
  {
    var operation := p.inFlight[c];
    var number, got := operation.page, operation.got;
    assert OnTrack(p, operation);
    ExtendPages(got, page);
    if number + 1 <= operation.lastPage && More(number, page) {
      ContinueKeepsValid(p, c, operation.(page := number + 1, unique := PutAll(operation.unique, page.items),
                                          got := got + [page]));
    } else {
      EndKeepsValid(p, c, AfterArrival(p, c, page));
    }
  }

  lemma StepKeepsValid(p: Pager, e: Event)
    requires Valid(p)
    ensures Valid(Step(p, e))
  {
    match e
    case LoadCalled | RefreshCalled =>
      if !p.state.loading {
        var refresh := Refreshing(p.generation, 1, Max(1, p.state.nextPage - 1), [], []);
        BeginKeepsValid(p, refresh);
        if p.state.hasMore && !p.retryRefresh {
          BeginKeepsValid(p, Loading(p.generation, p.state.nextPage));
        }
      }
    case ResetCalled => ResetKeepsValid(p);
    case Arrived(c, page) =>
      if Current(p, c) {
        if p.inFlight[c].Loading? {
          LoadedKeepsValid(p, c, page);
        } else {
          RefreshedKeepsValid(p, c, page);
        }
      } else if c in p.inFlight {
        DropKeepsValid(p, c);
      }
    case Failed(c, reason) =>
      if Current(p, c) {
        EndKeepsValid(p, c, Step(p, e));
      } else if c in p.inFlight {
        DropKeepsValid(p, c);
      }
  }

  lemma {:induction false} RunKeepsValid(p: Pager, events: seq<Event>)
    requires Valid(p)
    ensures Valid(Run(p, events))
    decreases |events|
  {
    if events == [] {
    } else {
      StepKeepsValid(p, events[0]);
      RunKeepsValid(Step(p, events[0]), events[1..]);
    }
  }

  // ---------------------------------------------------------------- one operation, stale answers

  /** In every run, `loading` holds exactly when an operation of the current generation waits, and there is only one. */
  lemma OneCurrentOperation(events: seq<Event>)
    ensures var p := Run(NEW, events);
            && (p.state.loading <==> exists c :: Current(p, c))
            && (forall c, d :: Current(p, c) && Current(p, d) ==> c == d)
            && (p.published == Some(p.state) || p == NEW)
  {
    RunKeepsValid(NEW, events);
    NothingPublishedNothingDone(events);
  }

  lemma {:induction false} NothingPublishedNothingDone(events: seq<Event>)
    ensures Run(NEW, events).published.None? ==> Run(NEW, events) == NEW
    decreases |events|
  {
    if events == [] {
    } else {
      var front, last := events[..|events| - 1], events[|events| - 1];
      assert events == front + [last];
      RunAppend(NEW, front, [last]);
      NothingPublishedNothingDone(front);
    }
  }

  lemma {:induction false} RunAppend(p: Pager, events: seq<Event>, more: seq<Event>)
    ensures Run(p, events + more) == Run(Run(p, events), more)
    decreases |events|
  {
    if events == [] {
      assert events + more == more;
    } else {
      assert (events + more)[1..] == events[1..] + more;
      RunAppend(Step(p, events[0]), events[1..], more);
    }
  }

  /** The answer of an operation that a reset overtook only ends that operation. The abort test never decides:
      an aborted operation is always of an older generation. */
  lemma StaleAnswersAreInert(events: seq<Event>, c: nat, page: Page, reason: string)
    requires c in Run(NEW, events).inFlight
    ensures var p := Run(NEW, events);
            && (Stale(p, c) <==> p.inFlight[c].generation < p.generation)
            && (Stale(p, c) ==>
                  Step(p, Arrived(c, page)) == p.(inFlight := p.inFlight - {c}) == Step(p, Failed(c, reason)))
  {
    RunKeepsValid(NEW, events);
    var p := Run(NEW, events);
    assert p.inFlight[c].generation == p.generation ==> Current(p, c);
  }

  // ---------------------------------------------------------------- what the list is

  predicate DistinctIds(list: seq<Item>) {
    forall i, j :: 0 <= i < j < |list| ==> list[i].id != list[j].id
  }

  /** Position of the first item with this id; |items| if there is none. */
  function FirstIndex(items: seq<Item>, id: string): nat {
    if items == [] then 0 else if items[0].id == id then 0 else 1 + FirstIndex(items[1..], id)
  }

  function LastWith(items: seq<Item>, id: string): Option<Item> {
    if items == [] then None
    else if items[|items| - 1].id == id then Some(items[|items| - 1])
    else LastWith(items[..|items| - 1], id)
  }

  predicate LastValues(list: seq<Item>, items: seq<Item>) {
    forall i :: 0 <= i < |list| ==> LastWith(items, list[i].id) == Some(list[i])
  }

  ghost predicate Covers(list: seq<Item>, items: seq<Item>) {
    forall k :: 0 <= k < |items| ==> exists i :: 0 <= i < |list| && list[i].id == items[k].id
  }

  predicate InFirstOrder(list: seq<Item>, items: seq<Item>) {
    forall i, j :: 0 <= i < j < |list| ==> FirstIndex(items, list[i].id) < FirstIndex(items, list[j].id)
  }

  /** `list` holds one item per id of `items`: the last one received, at the rank of the first one received. */
  ghost predicate Deduplicates(list: seq<Item>, items: seq<Item>) {
    DistinctIds(list) && LastValues(list, items) && Covers(list, items) && InFirstOrder(list, items)
  }

  lemma {:induction false} PutMeaning(unique: seq<Item>, item: Item)
    ensures (exists i :: 0 <= i < |unique| && unique[i].id == item.id && Put(unique, item) == unique[i := item])
            || ((forall i :: 0 <= i < |unique| ==> unique[i].id != item.id) && Put(unique, item) == unique + [item])
    decreases |unique|
  {
    if unique != [] && unique[0].id != item.id {
      PutMeaning(unique[1..], item);
      if i :| 0 <= i < |unique| - 1 && unique[1..][i].id == item.id
              && Put(unique[1..], item) == unique[1..][i := item] {
        assert Put(unique, item) == unique[i + 1 := item];
      }
    } else if unique != [] {
      assert Put(unique, item) == unique[0 := item];
    }
  }

  lemma {:induction false} FirstIndexAppend(items: seq<Item>, item: Item, id: string)
    ensures FirstIndex(items, id) <= |items|
    ensures FirstIndex(items, id) < |items| <==> exists k :: 0 <= k < |items| && items[k].id == id
    ensures FirstIndex(items + [item], id) ==
            if FirstIndex(items, id) < |items| || item.id == id then FirstIndex(items, id) else |items| + 1
    decreases |items|
  {
    if items == [] {
    } else {
      assert (items + [item])[1..] == items[1..] + [item];
      FirstIndexAppend(items[1..], item, id);
      if items[0].id != id && exists k :: 0 <= k < |items| && items[k].id == id {
        var k :| 0 <= k < |items| && items[k].id == id;
        assert items[1..][k - 1].id == id;
      }
    }
  }

  /** What one more item does to the first position and the last item of an id already received. */
  lemma OneMoreItem(items: seq<Item>, item: Item, id: string)
    requires LastWith(items, id).Some?
    ensures FirstIndex(items + [item], id) == FirstIndex(items, id) < |items|
    ensures LastWith(items + [item], id) == if item.id == id then Some(item) else LastWith(items, id)
  {
    assert (items + [item])[..|items|] == items;
    LastWithIsIn(items, id);
    FirstIndexAppend(items, item, id);
  }

  lemma PutCovers(list: seq<Item>, items: seq<Item>, item: Item)
    requires Covers(list, items)
    ensures Covers(Put(list, item), items + [item])
  {
    var list', items' := Put(list, item), items + [item];
    PutMeaning(list, item);
    assert exists r :: 0 <= r < |list'| && list'[r].id == item.id by {
      if i :| 0 <= i < |list| && list[i].id == item.id && Put(list, item) == list[i := item] {
        assert list'[i].id == item.id;
      } else {
        assert list'[|list|].id == item.id;
      }
    }
    forall k | 0 <= k < |items'|
      ensures exists r :: 0 <= r < |list'| && list'[r].id == items'[k].id
    {
      if k < |items| {
        var r :| 0 <= r < |list| && list[r].id == items[k].id;
        assert list'[r].id == items'[k].id;
      } else {
        var r :| 0 <= r < |list'| && list'[r].id == item.id;
      }
    }
  }

  lemma ReplaceDeduplicates(list: seq<Item>, items: seq<Item>, i: nat, item: Item)
    requires DistinctIds(list) && LastValues(list, items) && InFirstOrder(list, items)
    requires i < |list| && list[i].id == item.id
    ensures var list' := list[i := item];
            DistinctIds(list') && LastValues(list', items + [item]) && InFirstOrder(list', items + [item])
  {
    var list', items' := list[i := item], items + [item];
    forall k | 0 <= k < |list|
      ensures list'[k].id == list[k].id
      ensures FirstIndex(items', list'[k].id) == FirstIndex(items, list[k].id)
      ensures LastWith(items', list'[k].id) == Some(list'[k])
    {
      OneMoreItem(items, item, list[k].id);
      assert k < i || k == i || i < k;
    }
  }

  lemma AppendDeduplicates(list: seq<Item>, items: seq<Item>, item: Item)
    requires Deduplicates(list, items) && forall i :: 0 <= i < |list| ==> list[i].id != item.id
    ensures var list' := list + [item];
            DistinctIds(list') && LastValues(list', items + [item]) && InFirstOrder(list', items + [item])
  {
    var list', items' := list + [item], items + [item];
    FirstIndexAppend(items, item, item.id);
    forall k | 0 <= k < |items|
      ensures items[k].id != item.id
    {
      var r :| 0 <= r < |list| && list[r].id == items[k].id;
    }
    assert FirstIndex(items', item.id) == |items|;
    forall k | 0 <= k < |list|
      ensures FirstIndex(items', list[k].id) == FirstIndex(items, list[k].id) < |items|
      ensures LastWith(items', list[k].id) == Some(list[k])
    {
      OneMoreItem(items, item, list[k].id);
    }
  }

  lemma PutDeduplicates(list: seq<Item>, items: seq<Item>, item: Item)
    requires Deduplicates(list, items)
    ensures Deduplicates(Put(list, item), items + [item])
  {
    PutMeaning(list, item);
    PutCovers(list, items, item);
    if i :| 0 <= i < |list| && list[i].id == item.id && Put(list, item) == list[i := item] {
      ReplaceDeduplicates(list, items, i, item);
    } else {
      AppendDeduplicates(list, items, item);
    }
  }

  lemma {:induction false} LastWithIsIn(items: seq<Item>, id: string)
    requires LastWith(items, id).Some?
    ensures exists k :: 0 <= k < |items| && items[k].id == id
    decreases |items|
  {
    if items[|items| - 1].id != id {
      LastWithIsIn(items[..|items| - 1], id);
      var k :| 0 <= k < |items| - 1 && items[..|items| - 1][k].id == id;
      assert items[k].id == id;
    }
  }

  lemma {:induction false} PutAllDeduplicates(items: seq<Item>)
    ensures Deduplicates(PutAll([], items), items)
    decreases |items|
  {
    if items == [] {
    } else {
      var front, last := items[..|items| - 1], items[|items| - 1];
      assert items == front + [last];
      PutAllDeduplicates(front);
      PutAllAppend([], front, [last]);
      assert PutAll(PutAll([], front), [last]) == Put(PutAll([], front), last);
      PutDeduplicates(PutAll([], front), front, last);
    }
  }

  /** In every run the list is that of pages 1 to nextPage - 1, each but the last announcing a next one. */
  lemma ListIsMergeOfPages(events: seq<Event>)
    ensures var p := Run(NEW, events);
            && p.state.nextPage == |p.fetched| + 1
            && Consecutive(p.fetched) && p.state.hasMore == EndsWithMore(p.fetched)
            && Deduplicates(p.state.items, AllItems(p.fetched))
  {
    RunKeepsValid(NEW, events);
    PutAllDeduplicates(AllItems(Run(NEW, events).fetched));
  }

  // ---------------------------------------------------------------- refresh is atomic

  /** An operation that has ended or was overtaken is never current again. */
  lemma NeverCurrentAgain(p: Pager, e: Event, c: nat)
    requires Valid(p) && c < p.controllers && !Current(p, c)
    ensures !Current(Step(p, e), c) && c < Step(p, e).controllers
  {}

  lemma {:induction false} NeverCurrentLater(p: Pager, events: seq<Event>, c: nat)
    requires Valid(p) && c < p.controllers && !Current(p, c)
    ensures !Current(Run(p, events), c)
    decreases |events|
  {
    if events == [] {
    } else {
      NeverCurrentAgain(p, events[0], c);
      StepKeepsValid(p, events[0]);
      NeverCurrentLater(Step(p, events[0]), events[1..], c);
    }
  }

  lemma StepHoldsList(p: Pager, c: nat, e: Event)
    requires Valid(p) && Current(p, c) && Current(Step(p, e), c)
    ensures Step(p, e).state == p.state && Step(p, e).fetched == p.fetched
    ensures Step(p, e).inFlight[c].Refreshing? == p.inFlight[c].Refreshing?
  {
    assert p.state.loading;
    if e.Arrived? || e.Failed? {
      var d := e.operation;
      if d in p.inFlight && d != c {
        assert !Current(p, d);
      }
    }
  }

  /** Whatever happens while an operation waits, the visible list stays as it was when the operation began. */
  lemma {:induction false} ListHeldWhileWaiting(p: Pager, c: nat, events: seq<Event>)
    requires Valid(p) && Current(p, c) && Current(Run(p, events), c)
    ensures Run(p, events).state == p.state && Run(p, events).fetched == p.fetched
    ensures Run(p, events).inFlight[c].Refreshing? == p.inFlight[c].Refreshing?
    decreases |events|
  {
    if events == [] {
    } else {
      var q := Step(p, events[0]);
      StepKeepsValid(p, events[0]);
      assert c < q.controllers;
      if !Current(q, c) {
        NeverCurrentLater(q, events[1..], c);
      }
      StepHoldsList(p, c, events[0]);
      ListHeldWhileWaiting(q, c, events[1..]);
    }
  }

  /** From the call to the failure of a refresh, across any events in between, the list is kept;
      the next `load` is then a refresh, which starts at page 1. */
  lemma FailedRefreshKeepsList(p: Pager, middle: seq<Event>, reason: string)
    requires Valid(p) && !p.state.loading
    requires Current(Run(AfterRefresh(p), middle), p.controllers)
    ensures var q := Step(Run(AfterRefresh(p), middle), Failed(p.controllers, reason));
            && q.state == p.state.(error := Some(reason))
            && q.retryRefresh && AfterLoad(q) == AfterRefresh(q)
            && AfterLoad(q).inFlight[q.controllers].page == 1
  {
    var c := p.controllers;
    StepKeepsValid(p, RefreshCalled);
    assert Current(AfterRefresh(p), c);
    ListHeldWhileWaiting(AfterRefresh(p), c, middle);
    RunKeepsValid(AfterRefresh(p), middle);
  }

  // ---------------------------------------------------------------- an unchanged listing

  type Listing = int -> Page

  predicate Follows(listing: Listing, pages: seq<Page>) {
    forall k :: 0 <= k < |pages| ==> pages[k] == listing(k + 1)
  }

  ghost predicate Agrees(listing: Listing, p: Pager) {
    && Follows(listing, p.fetched)
    && forall c :: Current(p, c) && p.inFlight[c].Refreshing? ==> Follows(listing, p.inFlight[c].got)
  }

  /** The current operation is answered from the listing; stale answers may be anything. */
  predicate Serves(listing: Listing, p: Pager, e: Event) {
    e.Arrived? && Current(p, e.operation) ==> e.page == listing(p.inFlight[e.operation].page)
  }

  predicate ServesAll(listing: Listing, p: Pager, events: seq<Event>)
    decreases |events|
  {
    events == [] || (Serves(listing, p, events[0]) && ServesAll(listing, Step(p, events[0]), events[1..]))
  }

  lemma ArrivalAgrees(listing: Listing, p: Pager, c: nat)
    requires Valid(p) && Agrees(listing, p) && Current(p, c)
    ensures Agrees(listing, AfterArrival(p, c, listing(p.inFlight[c].page)))
  {
    var q := AfterArrival(p, c, listing(p.inFlight[c].page));
    assert OnTrack(p, p.inFlight[c]);
    forall d | Current(q, d)
      ensures d == c
    {
      assert Current(p, d);
    }
  }

  lemma StepAgrees(listing: Listing, p: Pager, e: Event)
    requires Valid(p) && Agrees(listing, p) && Serves(listing, p, e)
    ensures Agrees(listing, Step(p, e))
  {
    if e.Arrived? && Current(p, e.operation) {
      ArrivalAgrees(listing, p, e.operation);
    } else {
      var q := Step(p, e);
      forall c | Current(q, c)
        ensures q.inFlight[c].Loading? || q.inFlight[c].got == [] || (Current(p, c) && q.inFlight[c] == p.inFlight[c])
      {
        assert Current(p, c) || c == p.controllers;
      }
    }
  }

  lemma {:induction false} RunAgrees(listing: Listing, p: Pager, events: seq<Event>)
    requires Valid(p) && Agrees(listing, p) && ServesAll(listing, p, events)
    ensures Agrees(listing, Run(p, events))
    decreases |events|
  {
    if events == [] {
    } else {
      StepAgrees(listing, p, events[0]);
      StepKeepsValid(p, events[0]);
      RunAgrees(listing, Step(p, events[0]), events[1..]);
    }
  }

  function FirstPages(listing: Listing, n: nat): seq<Page> {
    seq(n, k => listing(k + 1))
  }

  /** Over an unchanged listing every run shows the plain fold of the listing's first pages, and goes on
      exactly while the listing does. */
  lemma RunIsFoldOfListing(listing: Listing, events: seq<Event>)
    requires ServesAll(listing, NEW, events)
    ensures var p := Run(NEW, events);
            var n := p.state.nextPage - 1;
            && n >= 0 && p.state.items == Merge(FirstPages(listing, n))
            && (forall k :: 1 <= k < n ==> More(k, listing(k)))
            && (p.state.hasMore <==> n == 0 || More(n, listing(n)))
  {
    RunKeepsValid(NEW, events);
    RunAgrees(listing, NEW, events);
    var p := Run(NEW, events);
    assert p.fetched == FirstPages(listing, |p.fetched|);
    forall k | 1 <= k < |p.fetched|
      ensures More(k, listing(k))
    {
      assert More(k - 1 + 1, p.fetched[k - 1]);
    }
  }

  /** A refresh that succeeds over an unchanged listing gives exactly what the successive loads gave. */
  lemma RefreshOverUnchangedListing(listing: Listing, p: Pager, middle: seq<Event>)
    requires Valid(p) && Agrees(listing, p) && !p.state.loading && p.state.nextPage > 1
    requires ServesAll(listing, AfterRefresh(p), middle)
    requires Current(Run(AfterRefresh(p), middle), p.controllers)
    ensures var q := Run(AfterRefresh(p), middle);
            var operation := q.inFlight[p.controllers];
            var r := Step(q, Arrived(p.controllers, listing(operation.page)));
            && operation.Refreshing?
            && (p.controllers !in r.inFlight <==> operation.page == operation.lastPage)
            && (p.controllers !in r.inFlight ==> r.state == p.state.(error := None) && !r.retryRefresh)
  {
    var c := p.controllers;
    StepKeepsValid(p, RefreshCalled);
    StepAgrees(listing, p, RefreshCalled);
    assert Current(AfterRefresh(p), c);
    ListHeldWhileWaiting(AfterRefresh(p), c, middle);
    RunKeepsValid(AfterRefresh(p), middle);
    RunAgrees(listing, AfterRefresh(p), middle);
    var q := Run(AfterRefresh(p), middle);
    var operation := q.inFlight[c];
    var number := operation.page;
    assert OnTrack(q, operation);
    assert number < |p.fetched| ==> More(number - 1 + 1, p.fetched[number - 1]);
    if number == operation.lastPage {
      assert operation.got + [listing(number)] == p.fetched;
      MergeOneMore(operation.got, listing(number));
    }
  }

  // ---------------------------------------------------------------- the class

  class LibraryPager {
    var state: LoadState
    var controller: Option<nat>
    var generation: nat
    var retryRefresh: bool
    /** The last snapshot handed to the view. */
    var published: Option<LoadState>
    /** The event loop: suspended operations, aborted signals, controllers made so far. */
    var inFlight: map<nat, Operation>
    var aborted: set<nat>
    var controllers: nat
    ghost var fetched: seq<Page>

    ghost function View(): Pager
      reads this
    {
      Pager(state, controller, generation, retryRefresh, published, inFlight, aborted, controllers, fetched)
    }

    constructor ()
      ensures View() == NEW && Valid(View())
    {
      state := INITIAL;
      controller, generation, retryRefresh, published := None, 0, false, None;
      inFlight, aborted, controllers, fetched := map[], {}, 0, [];
    }

    method PublishState(next: LoadState)
      modifies this`state, this`published
      ensures View() == Publish(old(View()), next)
    {
      state := next;
      published := Some(state);
    }

    method Suspend(operation: Operation)
      modifies this
      ensures View() == Begin(old(View()), operation)
    {
      controller := Some(controllers);
      inFlight := inFlight[controllers := operation];
      controllers := controllers + 1;
      PublishState(state.(loading := true, error := None));
    }

    method Reset()
      requires Valid(View())
      modifies this
      ensures View() == Step(old(View()), ResetCalled) && Valid(View())
    {
      StepKeepsValid(View(), ResetCalled);
      generation := generation + 1;
      if controller.Some? {
        aborted := aborted + {controller.value};
      }
      retryRefresh := false;
      fetched := [];
      PublishState(INITIAL);
    }

    method Refresh()
      requires Valid(View())
      modifies this
      ensures View() == Step(old(View()), RefreshCalled) && Valid(View())
    {
      StepKeepsValid(View(), RefreshCalled);
      if state.loading {
        return;
      }
      var lastPage := Max(1, state.nextPage - 1);
      Suspend(Refreshing(generation, 1, lastPage, [], []));
    }

    method Load()
      requires Valid(View())
      modifies this
      ensures View() == Step(old(View()), LoadCalled) && Valid(View())
    {
      StepKeepsValid(View(), LoadCalled);
      if retryRefresh {
        Refresh();
        return;
      }
      if state.loading || !state.hasMore {
        return;
      }
      Suspend(Loading(generation, state.nextPage));
    }

    /** The loop that puts the items of a page into the map. */
    static method SetAll(start: seq<Item>, items: seq<Item>) returns (unique: seq<Item>)
      ensures unique == PutAll(start, items)
    {
      unique := start;
      for k := 0 to |items|
        invariant PutAll(start, items) == PutAll(unique, items[k..])
      {
        unique := Put(unique, items[k]);
      }
    }

    method FinishLoad(c: nat, page: Page)
      requires c in inFlight && inFlight[c].Loading? && !Stale(View(), c)
      modifies this
      ensures View() == AfterArrival(old(View()), c, page)
    {
      var number := inFlight[c].page;
      var unique := SetAll(state.items, page.items);
      inFlight := inFlight - {c};
      fetched := fetched + [page];
      PublishState(LoadState(unique, number + 1, More(number, page), false, None));
    }

    method ContinueRefresh(c: nat, page: Page)
      requires c in inFlight && inFlight[c].Refreshing? && !Stale(View(), c)
      modifies this
      ensures View() == AfterArrival(old(View()), c, page)
    {
      var operation := inFlight[c];
      var number, hasMore := operation.page, More(operation.page, page);
      var unique := SetAll(operation.unique, page.items);
      var got := operation.got + [page];
      if number + 1 <= operation.lastPage && hasMore {
        inFlight := inFlight[c := operation.(page := number + 1, unique := unique, got := got)];
      } else {
        inFlight := inFlight - {c};
        retryRefresh := false;
        fetched := got;
        PublishState(LoadState(unique, number + 1, hasMore, false, None));
      }
    }

    /** What follows the await of operation `c` when its page arrives. */
    method Arrive(c: nat, page: Page)
      requires Valid(View()) && c in inFlight
      modifies this
      ensures View() == Step(old(View()), Arrived(c, page)) && Valid(View())
    {
      StepKeepsValid(View(), Arrived(c, page));
      if inFlight[c].generation != generation || c in aborted {
        inFlight := inFlight - {c};
      } else if inFlight[c].Loading? {
        FinishLoad(c, page);
      } else {
        ContinueRefresh(c, page);
      }
    }

    /** What follows the await of operation `c` when its request fails. */
    method Fail(c: nat, reason: string)
      requires Valid(View()) && c in inFlight
      modifies this
      ensures View() == Step(old(View()), Failed(c, reason)) && Valid(View())
    {
      StepKeepsValid(View(), Failed(c, reason));
      var operation := inFlight[c];
      inFlight := inFlight - {c};
      if operation.generation != generation || c in aborted {
        return;
      }
      if operation.Refreshing? {
        retryRefresh := true;
      }
      PublishState(state.(loading := false, error := Some(reason)));
    }
  }
}

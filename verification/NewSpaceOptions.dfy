/** Which folders a new space may select, and which existing space covers them
    (frontend/app/new-space-options.ts). The parent graph comes from a remote catalog: it may be
    cyclic, incomplete, and give a folder several parents.
  */
module NewSpaces {
  import opened Common

  datatype Folder = Folder(id: string, name: string, parents: seq<string>)

  datatype Space = Space(name: string, allAccessible: bool, selected: seq<string>)

  datatype Offer = Offer(folder: Folder, existingSpace: Option<string>, coveredBy: Option<string>)

  type Graph = map<string, seq<string>>

  function ParentsOf(graph: Graph, id: string): seq<string> {
    if id in graph then graph[id] else []
  }

  /** The parent lists by id; the last row of an id counts. */
  function GraphOf(catalog: seq<Folder>): (graph: Graph)
    ensures forall id :: id in graph <==> exists k :: 0 <= k < |catalog| && catalog[k].id == id
  {
    if catalog == [] then map[]
    else
      var last := catalog[|catalog| - 1];
      assert forall k :: 0 <= k < |catalog| - 1 ==> catalog[..|catalog| - 1][k] == catalog[k];
      GraphOf(catalog[..|catalog| - 1])[last.id := last.parents]
  }

  // ---------------------------------------------------------------- distances in the parent graph

  /** `ancestor` is reached from `id` over `distance` parent steps. */
  ghost predicate Reaches(graph: Graph, id: string, ancestor: string, distance: nat)
    decreases distance
  {
    if distance == 0 then ancestor == id
    else exists child :: Reaches(graph, id, child, distance - 1) && ancestor in ParentsOf(graph, child)
  }

  /** A proper ancestor that is a space with a name. */
  ghost predicate Covers(graph: Graph, spaceByFolder: map<string, string>, id: string, ancestor: string,
                         distance: nat) {
    && ancestor != id && Reaches(graph, id, ancestor, distance)
    && ancestor in spaceByFolder && spaceByFolder[ancestor] != ""
  }

  ghost predicate Covered(graph: Graph, spaceByFolder: map<string, string>, id: string) {
    exists ancestor, distance: nat :: Covers(graph, spaceByFolder, id, ancestor, distance)
  }

  /** `name` is that of a covering space than which none is nearer. */
  ghost predicate NearestCover(graph: Graph, spaceByFolder: map<string, string>, id: string, name: string) {
    exists ancestor, distance: nat ::
      && Covers(graph, spaceByFolder, id, ancestor, distance) && spaceByFolder[ancestor] == name
      && forall other, further: nat :: Covers(graph, spaceByFolder, id, other, further) ==> distance <= further
  }

  function Nodes(graph: Graph, id: string): set<string> {
    {id} + set child, parent | child in graph && parent in graph[child] :: parent
  }

  // ---------------------------------------------------------------- the breadth-first search

  /** Everything within `depth` steps has been seen, and nothing seen is a covering space. */
  ghost predicate SeenWithin(graph: Graph, spaceByFolder: map<string, string>, id: string, seen: set<string>,
                             depth: nat) {
    && id in seen && seen <= Nodes(graph, id)
    && (forall x, k: nat :: k <= depth && Reaches(graph, id, x, k) ==> x in seen)
    && (forall x :: x in seen && x != id ==> x !in spaceByFolder || spaceByFolder[x] == "")
  }

  /** The parents of what has been seen are seen or still to be looked at. */
  ghost predicate Closed(graph: Graph, seen: set<string>, pending: seq<string>) {
    forall x, parent :: x in seen && parent in ParentsOf(graph, x) ==> parent in seen || parent in pending
  }

  ghost predicate AllAt(graph: Graph, id: string, xs: seq<string>, distance: nat) {
    forall x :: x in xs ==> Reaches(graph, id, x, distance)
  }

  lemma {:induction false} ClosedIsEverything(graph: Graph, id: string, seen: set<string>, x: string, distance: nat)
    requires id in seen && Closed(graph, seen, []) && Reaches(graph, id, x, distance)
    ensures x in seen
    decreases distance
  {
    if distance == 0 {
    } else {
      var child :| Reaches(graph, id, child, distance - 1) && x in ParentsOf(graph, child);
      ClosedIsEverything(graph, id, seen, child, distance - 1);
    }
  }

  /** A covering space found at the frontier is a nearest one. */
  lemma FoundIsNearest(graph: Graph, spaceByFolder: map<string, string>, id: string, seen: set<string>, depth: nat,
                       x: string)
    requires SeenWithin(graph, spaceByFolder, id, seen, depth) && Covers(graph, spaceByFolder, id, x, depth + 1)
    ensures NearestCover(graph, spaceByFolder, id, spaceByFolder[x])
  {
    forall other, further: nat | Covers(graph, spaceByFolder, id, other, further)
      ensures depth + 1 <= further
    {
      assert Reaches(graph, id, other, further);
    }
  }

  lemma NothingFound(graph: Graph, spaceByFolder: map<string, string>, id: string, seen: set<string>, depth: nat)
    requires SeenWithin(graph, spaceByFolder, id, seen, depth) && Closed(graph, seen, [])
    ensures !Covered(graph, spaceByFolder, id)
  {
    forall x, distance: nat | Covers(graph, spaceByFolder, id, x, distance)
      ensures false
    {
      ClosedIsEverything(graph, id, seen, x, distance);
    }
  }

  lemma NextLayer(graph: Graph, spaceByFolder: map<string, string>, id: string,
                  seen: set<string>, pending: seq<string>, depth: nat, seen': set<string>)
    requires SeenWithin(graph, spaceByFolder, id, seen, depth) && Closed(graph, seen, pending)
    requires seen <= seen' <= Nodes(graph, id) && forall x :: x in pending ==> x in seen'
    requires forall x :: x in seen' && x != id ==> x !in spaceByFolder || spaceByFolder[x] == ""
    ensures SeenWithin(graph, spaceByFolder, id, seen', depth + 1)
  {
    forall x, k: nat | k <= depth + 1 && Reaches(graph, id, x, k)
      ensures x in seen'
    {
      if k == depth + 1 {
        var child :| Reaches(graph, id, child, depth) && x in ParentsOf(graph, child);
      }
    }
  }

  predicate NoSpaceIn(spaceByFolder: map<string, string>, id: string, seen: set<string>) {
    forall x :: x in seen && x != id ==> x !in spaceByFolder || spaceByFolder[x] == ""
  }

  lemma ClosedStep(graph: Graph, seen: set<string>, pending: seq<string>, k: nat, next: seq<string>)
    requires k < |pending| && Closed(graph, seen, pending[k..] + next)
    ensures pending[k] in seen ==> Closed(graph, seen, pending[k + 1..] + next)
    ensures Closed(graph, seen + {pending[k]}, pending[k + 1..] + (next + ParentsOf(graph, pending[k])))
  {
    assert pending[k..] == [pending[k]] + pending[k + 1..];
  }

  /** One pass over the pending folders: a named space among those not seen yet, or the next layer. */
  method VisitLayer(graph: Graph, spaceByFolder: map<string, string>, id: string, ghost depth: nat,
                    before: set<string>, pending: seq<string>)
    returns (found: Option<string>, seen: set<string>, next: seq<string>)
    requires id in before && before <= Nodes(graph, id) && NoSpaceIn(spaceByFolder, id, before)
    requires Closed(graph, before, pending) && AllAt(graph, id, pending, depth)
    ensures found.Some? ==>
              exists x :: Covers(graph, spaceByFolder, id, x, depth) && found == Some(spaceByFolder[x])
    ensures found.None? ==>
              && before <= seen <= Nodes(graph, id) && (forall x :: x in pending ==> x in seen)
              && NoSpaceIn(spaceByFolder, id, seen)
              && Closed(graph, seen, next) && AllAt(graph, id, next, depth + 1)
              && (seen == before ==> next == [])
  {
    seen, next, found := before, [], None;
    assert pending[0..] + next == pending;
    for k := 0 to |pending|
      invariant before <= seen <= Nodes(graph, id) && NoSpaceIn(spaceByFolder, id, seen)
      invariant forall i :: 0 <= i < k ==> pending[i] in seen
      invariant Closed(graph, seen, pending[k..] + next) && AllAt(graph, id, next, depth + 1)
      invariant seen == before ==> next == []
    {
      var parent := pending[k];
      ClosedStep(graph, seen, pending, k, next);
      if parent in seen {
        continue;
      }
      assert Reaches(graph, id, parent, depth);
      if parent in spaceByFolder && spaceByFolder[parent] != "" {
        assert Covers(graph, spaceByFolder, id, parent, depth);
        found := Some(spaceByFolder[parent]);
        return;
      }
      InNodes(graph, id, parent, depth);
      seen := seen + {parent};
      next := next + ParentsOf(graph, parent);
    }
    assert pending[|pending|..] + next == next;
  }

  method CoveringSpace(graph: Graph, spaceByFolder: map<string, string>, allAccessible: Option<string>, id: string)
    returns (name: Option<string>)
    ensures Covered(graph, spaceByFolder, id) ==> name.Some? && NearestCover(graph, spaceByFolder, id, name.value)
    ensures !Covered(graph, spaceByFolder, id) ==> name == allAccessible
  {
    var seen := {id};
    var pending := ParentsOf(graph, id);
    ghost var depth: nat := 0;
    assert Reaches(graph, id, id, 0);
    while pending != []
      invariant SeenWithin(graph, spaceByFolder, id, seen, depth)
      invariant Closed(graph, seen, pending) && AllAt(graph, id, pending, depth + 1)
      decreases Nodes(graph, id) - seen, |pending|
    {
      var found, seen', next := VisitLayer(graph, spaceByFolder, id, depth + 1, seen, pending);
      if found.Some? {
        ghost var x :| Covers(graph, spaceByFolder, id, x, depth + 1) && found == Some(spaceByFolder[x]);
        FoundIsNearest(graph, spaceByFolder, id, seen, depth, x);
        return found;
      }
      NextLayer(graph, spaceByFolder, id, seen, pending, depth, seen');
      seen, pending, depth := seen', next, depth + 1;
    }
    NothingFound(graph, spaceByFolder, id, seen, depth);
    return allAccessible;
  }

  lemma InNodes(graph: Graph, id: string, x: string, distance: nat)
    requires Reaches(graph, id, x, distance)
    ensures x in Nodes(graph, id)
  {}

  // ---------------------------------------------------------------- the options

  /** The name each selected folder goes by; the last space that selects it counts. */
  function SpaceByFolder(spaces: seq<Space>): map<string, string> {
    if spaces == [] then map[]
    else
      var last := spaces[|spaces| - 1];
      SpaceByFolder(spaces[..|spaces| - 1]) + map id | id in last.selected :: last.name
  }

  function AllAccessible(spaces: seq<Space>): Option<string> {
    if spaces == [] then None
    else if spaces[0].allAccessible then Some(spaces[0].name)
    else AllAccessible(spaces[1..])
  }

  /** For Notion only rows without a parent in the catalog are offered; a row is not its own parent. */
  predicate Offered(graph: Graph, notion: bool, folder: Folder) {
    notion ==> forall parent :: parent in folder.parents && parent != folder.id ==> parent !in graph
  }

  function OfferedRows(graph: Graph, notion: bool, catalog: seq<Folder>): seq<Folder> {
    if catalog == [] then []
    else (if Offered(graph, notion, catalog[0]) then [catalog[0]] else []) + OfferedRows(graph, notion, catalog[1..])
  }

  /** What an offer says: the space the folder already is, or else the one that covers it. */
  ghost predicate Describes(graph: Graph, spaces: seq<Space>, offer: Offer) {
    var byFolder, id := SpaceByFolder(spaces), offer.folder.id;
    && offer.existingSpace == (if id in byFolder then Some(byFolder[id]) else None)
    && (if id in byFolder && byFolder[id] != "" then offer.coveredBy == None
        else if Covered(graph, byFolder, id) then
          offer.coveredBy.Some? && NearestCover(graph, byFolder, id, offer.coveredBy.value)
        else offer.coveredBy == AllAccessible(spaces))
  }

  method NewSpaceOptions(catalog: seq<Folder>, spaces: seq<Space>, notion: bool)
    returns (folders: seq<Offer>, allAccessibleTaken: bool)
    ensures |folders| == |OfferedRows(GraphOf(catalog), notion, catalog)|
    ensures forall k :: 0 <= k < |folders| ==>
              && folders[k].folder == OfferedRows(GraphOf(catalog), notion, catalog)[k]
              && Describes(GraphOf(catalog), spaces, folders[k])
    ensures allAccessibleTaken <==> exists k :: 0 <= k < |spaces| && spaces[k].allAccessible
  {
    var allAccessible := AllAccessible(spaces);
    var spaceByFolder := SpaceByFolder(spaces);
    var graph := GraphOf(catalog);
    var offered := OfferedRows(graph, notion, catalog);
    folders := [];
    for k := 0 to |offered|
      invariant |folders| == k
      invariant forall i :: 0 <= i < k ==>
        folders[i].folder == offered[i] && Describes(graph, spaces, folders[i])
    {
      var id := offered[k].id;
      var existingSpace := if id in spaceByFolder then Some(spaceByFolder[id]) else None;
      var coveredBy := None;
      if existingSpace == None || existingSpace.value == "" {
        coveredBy := CoveringSpace(graph, spaceByFolder, allAccessible, id);
      }
      folders := folders + [Offer(offered[k], existingSpace, coveredBy)];
    }
    AllAccessibleMeaning(spaces);
    allAccessibleTaken := allAccessible.Some?;
  }

  lemma {:induction false} AllAccessibleMeaning(spaces: seq<Space>)
    ensures AllAccessible(spaces).Some? <==> exists k :: 0 <= k < |spaces| && spaces[k].allAccessible
    decreases |spaces|
  {
    if spaces != [] && !spaces[0].allAccessible {
      AllAccessibleMeaning(spaces[1..]);
      if k :| 0 <= k < |spaces| && spaces[k].allAccessible {
        assert spaces[1..][k - 1].allAccessible;
      }
    }
  }

  // ---------------------------------------------------------------- offered roots

  /** A chain of catalog rows from `row` up to an offered one, each the parent of the one before. */
  ghost predicate HasOfferedAncestor(catalog: seq<Folder>, row: Folder, steps: nat)
    decreases steps
  {
    || Offered(GraphOf(catalog), true, row)
    || (steps > 0 && exists k :: 0 <= k < |catalog| && catalog[k].id in row.parents && catalog[k].id != row.id
                              && HasOfferedAncestor(catalog, catalog[k], steps - 1))
  }

  ghost predicate Selectable(catalog: seq<Folder>, row: Folder) {
    exists steps: nat :: HasOfferedAncestor(catalog, row, steps)
  }

  /** Row `k` is a proper parent of row `i`. */
  predicate IsParent(catalog: seq<Folder>, i: nat, k: nat)
    requires i < |catalog| && k < |catalog|
  {
    catalog[k].id in catalog[i].parents && catalog[k].id != catalog[i].id
  }

  /** Rows that lead nowhere: each has a proper parent in the catalog, and all such parents are among them. */
  ghost predicate Trapped(catalog: seq<Folder>, rows: set<nat>) {
    && (forall i :: i in rows ==> i < |catalog| && !Offered(GraphOf(catalog), true, catalog[i]))
    && (forall i, k: nat :: i in rows && k < |catalog| && IsParent(catalog, i, k) ==> k in rows)
  }

  lemma {:induction false} TrappedRowHasNone(catalog: seq<Folder>, rows: set<nat>, i: nat, steps: nat)
    requires Trapped(catalog, rows) && i in rows
    ensures !HasOfferedAncestor(catalog, catalog[i], steps)
    decreases steps
  {
    if steps == 0 {
    } else {
      forall k: nat | k < |catalog| && IsParent(catalog, i, k)
        ensures !HasOfferedAncestor(catalog, catalog[k], steps - 1)
      {
        TrappedRowHasNone(catalog, rows, k, steps - 1);
      }
    }
  }

  lemma OneMoreStep(catalog: seq<Folder>, i: nat, k: nat)
    requires i < |catalog| && k < |catalog| && IsParent(catalog, i, k) && Selectable(catalog, catalog[k])
    ensures Selectable(catalog, catalog[i])
  {
    var steps: nat :| HasOfferedAncestor(catalog, catalog[k], steps);
    assert HasOfferedAncestor(catalog, catalog[i], steps + 1);
  }

  lemma LostRowsAreTrapped(catalog: seq<Folder>)
    ensures Trapped(catalog, set i: nat | i < |catalog| && !Selectable(catalog, catalog[i]))
  {
    forall i: nat, k: nat | i < |catalog| && k < |catalog| && IsParent(catalog, i, k) && Selectable(catalog, catalog[k])
      ensures Selectable(catalog, catalog[i])
    {
      OneMoreStep(catalog, i, k);
    }
    forall i: nat | i < |catalog| && Offered(GraphOf(catalog), true, catalog[i])
      ensures Selectable(catalog, catalog[i])
    {
      assert HasOfferedAncestor(catalog, catalog[i], 0);
    }
  }

  lemma TrappedRowIsLost(catalog: seq<Folder>, rows: set<nat>, i: nat)
    requires Trapped(catalog, rows) && i in rows
    ensures !Selectable(catalog, catalog[i])
  {
    forall steps: nat
      ensures !HasOfferedAncestor(catalog, catalog[i], steps)
    {
      TrappedRowHasNone(catalog, rows, i, steps);
    }
  }

  /** Every row of a Notion catalog can be selected, through an offered ancestor or itself, if and only if no rows are
      trapped: no non-empty set of rows holds a proper parent of each and every such parent. */
  lemma EveryRowHasOfferedAncestor(catalog: seq<Folder>)
    ensures (forall i :: 0 <= i < |catalog| ==> Selectable(catalog, catalog[i])) <==>
            !exists rows: set<nat> :: rows != {} && Trapped(catalog, rows)
  {
    var lost: set<nat> := set i: nat | i < |catalog| && !Selectable(catalog, catalog[i]);
    LostRowsAreTrapped(catalog);
    if i: nat :| i < |catalog| && !Selectable(catalog, catalog[i]) {
      assert i in lost;
    }
    if rows: set<nat> :| rows != {} && Trapped(catalog, rows) {
      SomeRow(rows);
      var i :| i in rows;
      TrappedRowIsLost(catalog, rows, i);
    }
  }

  lemma SomeRow(rows: set<nat>)
    requires rows != {}
    ensures exists i :: i in rows
  {}

  /** Every parent row has a smaller rank, so that no row is its own proper ancestor. */
  predicate Acyclic(catalog: seq<Folder>, rank: string -> nat) {
    forall i: nat, k: nat :: i < |catalog| && k < |catalog| && IsParent(catalog, i, k) ==>
      rank(catalog[k].id) < rank(catalog[i].id)
  }

  /** Without cycles every row can be selected; a row of least rank cannot be trapped. */
  lemma {:induction false} AcyclicRowIsSelectable(catalog: seq<Folder>, rank: string -> nat, i: nat)
    requires Acyclic(catalog, rank) && i < |catalog|
    ensures Selectable(catalog, catalog[i])
    decreases rank(catalog[i].id)
  {
    var row, graph := catalog[i], GraphOf(catalog);
    if Offered(graph, true, row) {
      assert HasOfferedAncestor(catalog, row, 0);
    } else {
      var parent :| parent in row.parents && parent != row.id && parent in graph;
      var k :| 0 <= k < |catalog| && catalog[k].id == parent;
      AcyclicRowIsSelectable(catalog, rank, k);
      OneMoreStep(catalog, i, k);
    }
  }

  /** On a cycle nothing may be offered: of two folders that are each other's parent, neither can be selected. */
  lemma CycleOffersNothing()
    ensures var catalog := [Folder("a", "A", ["b"]), Folder("b", "B", ["a"])];
            OfferedRows(GraphOf(catalog), true, catalog) == []
  {
    var catalog := [Folder("a", "A", ["b"]), Folder("b", "B", ["a"])];
    assert catalog[0].id == "a" && catalog[1].id == "b";
    var graph := GraphOf(catalog);
    assert "a" in graph && "b" in graph;
    assert "b" in catalog[0].parents && "a" in catalog[1].parents && "a" != "b";
    assert !Offered(graph, true, catalog[0]) && !Offered(graph, true, catalog[1]);
    assert OfferedRows(graph, true, catalog[1..]) == OfferedRows(graph, true, catalog[1..][1..]) == [];
  }

  // ---------------------------------------------------------------- the displayed path

  /** The row looked up by id; the last one counts. */
  function Row(catalog: seq<Folder>, id: string): (row: Option<Folder>)
    ensures row.Some? ==> row.value.id == id && row.value in catalog
    ensures row.None? ==> forall k :: 0 <= k < |catalog| ==> catalog[k].id != id
  {
    if catalog == [] then None
    else if catalog[|catalog| - 1].id == id then Some(catalog[|catalog| - 1])
    else
      assert forall k :: 0 <= k < |catalog| - 1 ==> catalog[..|catalog| - 1][k] == catalog[k];
      Row(catalog[..|catalog| - 1], id)
  }

  function FirstParent(row: Folder): string {
    if row.parents == [] then "" else row.parents[0]
  }

  /** `trail` climbs from the item over first parents, never to an id twice. */
  predicate Climbs(catalog: seq<Folder>, item: Folder, trail: seq<Folder>) {
    && trail != [] && trail[|trail| - 1] == item
    && (forall k :: 0 <= k < |trail| - 1 ==> Row(catalog, FirstParent(trail[k + 1])) == Some(trail[k]))
    && (forall i, k :: 0 <= i < k < |trail| ==> trail[i].id != trail[k].id)
  }

  function Names(trail: seq<Folder>): seq<string> {
    seq(|trail|, k requires 0 <= k < |trail| => trail[k].name)
  }

  function TrailIds(trail: seq<Folder>): set<string> {
    set k | 0 <= k < |trail| :: trail[k].id
  }

  lemma IdsOfLonger(trail: seq<Folder>, top: Folder)
    ensures TrailIds([top] + trail) == TrailIds(trail) + {top.id}
    ensures Names([top] + trail) == [top.name] + Names(trail)
  {
    var longer := [top] + trail;
    assert forall k :: 0 <= k < |trail| ==> longer[k + 1] == trail[k];
    forall id | id in TrailIds(trail)
      ensures id in TrailIds(longer)
    {
      var k :| 0 <= k < |trail| && trail[k].id == id;
      assert longer[k + 1].id == id;
    }
    assert longer[0].id in TrailIds(longer);
  }

  lemma ClimbOnce(catalog: seq<Folder>, item: Folder, trail: seq<Folder>, top: Folder)
    requires Climbs(catalog, item, trail) && top.id !in TrailIds(trail)
    requires Row(catalog, FirstParent(trail[0])) == Some(top)
    ensures Climbs(catalog, item, [top] + trail)
  {
    var longer := [top] + trail;
    forall i, k | 0 <= i < k < |longer|
      ensures longer[i].id != longer[k].id
    {
      assert longer[k] == trail[k - 1];
      if i == 0 {
        assert trail[k - 1].id in TrailIds(trail);
      } else {
        assert longer[i] == trail[i - 1];
      }
    }
    forall k | 0 <= k < |longer| - 1
      ensures Row(catalog, FirstParent(longer[k + 1])) == Some(longer[k])
    {
      assert longer[k + 1] == trail[k];
      assert k > 0 ==> longer[k] == trail[k - 1];
    }
  }

  /** The climb cannot go on: there is no further parent, no row for it, or it has been passed. */
  predicate Ends(catalog: seq<Folder>, trail: seq<Folder>)
    requires trail != []
  {
    var top := FirstParent(trail[0]);
    top == "" || Row(catalog, top).None? || top in TrailIds(trail)
  }

  ghost predicate IsPathOf(catalog: seq<Folder>, item: Folder, parts: seq<string>) {
    exists trail :: Climbs(catalog, item, trail) && Ends(catalog, trail) && parts == Names(trail)
  }

  /** The names from the outermost reachable first parent down to the item; a cycle or a gap ends the climb. */
  method CatalogItemPath(item: Folder, catalog: seq<Folder>) returns (parts: seq<string>)
    ensures IsPathOf(catalog, item, parts)
  {
    parts := [item.name];
    ghost var trail := [item];
    var seen := {item.id};
    var parentId := FirstParent(item);
    while parentId != "" && parentId !in seen
      invariant Climbs(catalog, item, trail) && parts == Names(trail) && parentId == FirstParent(trail[0])
      invariant seen == TrailIds(trail) && seen <= GraphOf(catalog).Keys + {item.id}
      decreases GraphOf(catalog).Keys + {item.id} - seen
    {
      var parent := Row(catalog, parentId);
      if parent == None {
        break;
      }
      ClimbOnce(catalog, item, trail, parent.value);
      IdsOfLonger(trail, parent.value);
      seen := seen + {parentId};
      parts := [parent.value.name] + parts;
      trail := [parent.value] + trail;
      parentId := FirstParent(parent.value);
    }
    assert Ends(catalog, trail);
  }
}

/** The extracted text of a document, read in pages of chunks around a cited one: the route that serves a page
    (backend/app/api/document_view.py, document_chunks), the viewer that adds pages at either end
    (frontend/app/file-viewer.tsx, TextViewer) and the grouping it displays (groupByPage).
  */
module ChunkWindow {
  import opened Common

  datatype Chunk = Chunk(id: string, position: int, pageNumber: Option<int>, text: string)

  datatype ChunkPage = ChunkPage(total: nat, offset: nat, hasMore: bool, chunks: seq<Chunk>)

  /** The chunks of one document, in position order; ids and positions are unique. */
  predicate IsDocument(document: seq<Chunk>) {
    forall i, k :: 0 <= i < k < |document| ==>
      document[i].position < document[k].position && document[i].id != document[k].id
  }

  // ---------------------------------------------------------------- the route

  function PositionOf(document: seq<Chunk>, id: string): Option<int> {
    if document == [] then None
    else if document[0].id == id then Some(document[0].position)
    else PositionOf(document[1..], id)
  }

  function CountBefore(document: seq<Chunk>, position: int): nat {
    if document == [] then 0
    else (if document[0].position < position then 1 else 0) + CountBefore(document[1..], position)
  }

  function Min(x: nat, y: nat): nat { if x <= y then x else y }

  /** OFFSET and LIMIT of the query. */
  function Rows(document: seq<Chunk>, offset: nat, limit: nat): seq<Chunk> {
    if |document| <= offset then [] else document[offset..Min(|document|, offset + limit)]
  }

  function DocumentChunks(document: seq<Chunk>, offset: nat, limit: nat, around: Option<string>): ChunkPage
    requires limit >= 1
  {
    var target := if around.Some? then PositionOf(document, around.value) else None;
    var offset' := if target.Some? then CountBefore(document, target.value) / limit * limit else offset;
    var rows := Rows(document, offset', limit);
    ChunkPage(|document|, offset', offset' + |rows| < |document|, rows)
  }

  lemma {:induction false} BeforeIsIndex(document: seq<Chunk>, k: nat)
    requires IsDocument(document) && k < |document|
    ensures PositionOf(document, document[k].id) == Some(document[k].position)
    ensures CountBefore(document, document[k].position) == k
    decreases |document|
  {
    var rest := document[1..];
    if k > 0 {
      assert rest[k - 1] == document[k];
      BeforeIsIndex(rest, k - 1);
    } else {
      NoneBefore(rest, document[0].position);
    }
  }

  lemma {:induction false} NoneBefore(document: seq<Chunk>, position: int)
    requires forall k :: 0 <= k < |document| ==> position < document[k].position
    ensures CountBefore(document, position) == 0
    decreases |document|
  {
    if document == [] {
    } else {
      NoneBefore(document[1..], position);
    }
  }

  lemma {:induction false} UnknownHasNoPosition(document: seq<Chunk>, id: string)
    requires forall k :: 0 <= k < |document| ==> document[k].id != id
    ensures PositionOf(document, id) == None
    decreases |document|
  {
    if document == [] {
    } else {
      UnknownHasNoPosition(document[1..], id);
    }
  }

  predicate IsMultiple(m: nat, q: nat, n: nat) {
    m == q * n
  }

  /** The page around a chunk starts at a multiple of the page size and holds the chunk. */
  lemma LandsOnChunk(document: seq<Chunk>, k: nat, offset: nat, limit: nat)
    requires IsDocument(document) && k < |document| && limit >= 1
    ensures var page := DocumentChunks(document, offset, limit, Some(document[k].id));
            && (exists q :: IsMultiple(page.offset, q, limit))
            && page.offset <= k < page.offset + |page.chunks| && page.chunks[k - page.offset] == document[k]
  {
    BeforeIsIndex(document, k);
    var page := DocumentChunks(document, offset, limit, Some(document[k].id));
    assert IsMultiple(page.offset, k / limit, limit);
    MultipleBounds(k, limit);
  }

  lemma MultipleBounds(k: nat, n: nat)
    requires n >= 1
    ensures k / n * n <= k < k / n * n + n
  {}

  // ---------------------------------------------------------------- the viewer

  const PAGE := 40

  datatype Direction = Next | Previous

  /** A click on one of the buttons that the viewer shows, and whether its request fails. */
  datatype Click = Click(direction: Direction, fails: bool)

  /** Which request a click makes. */
  function RequestedOffset(pages: seq<ChunkPage>, direction: Direction): nat
    requires pages != []
  {
    match direction
    case Next => pages[|pages| - 1].offset + |pages[|pages| - 1].chunks|
    case Previous => Max(0, pages[0].offset - PAGE)
  }

  predicate Shown(pages: seq<ChunkPage>, direction: Direction)
    requires pages != []
  {
    match direction
    case Next => pages[|pages| - 1].hasMore
    case Previous => pages[0].offset > 0
  }

  function More(document: seq<Chunk>, pages: seq<ChunkPage>, click: Click): seq<ChunkPage>
    requires pages != []
  {
    if !Shown(pages, click.direction) || click.fails then pages
    else
      var page := DocumentChunks(document, RequestedOffset(pages, click.direction), PAGE, None);
      if click.direction.Next? then pages + [page] else [page] + pages
  }

  function Clicks(document: seq<Chunk>, pages: seq<ChunkPage>, clicks: seq<Click>): (pages': seq<ChunkPage>)
    requires pages != []
    ensures pages' != []
    decreases |clicks|
  {
    if clicks == [] then pages else Clicks(document, More(document, pages, clicks[0]), clicks[1..])
  }

  /** pages.flatMap(page => page.chunks) */
  function Text(pages: seq<ChunkPage>): seq<Chunk> {
    if pages == [] then [] else pages[0].chunks + Text(pages[1..])
  }

  function End(pages: seq<ChunkPage>): nat
    requires pages != []
  {
    pages[|pages| - 1].offset + |pages[|pages| - 1].chunks|
  }

  /** The pages are one slice of the document that starts at a multiple of the page size. */
  predicate IsWindow(document: seq<Chunk>, pages: seq<ChunkPage>) {
    && pages != []
    && pages[0].offset <= End(pages) <= |document|
    && Text(pages) == document[pages[0].offset..End(pages)]
    && pages[0].offset % PAGE == 0
    && pages[|pages| - 1].hasMore == (End(pages) < |document|)
  }

  lemma {:induction false} TextAppend(pages: seq<ChunkPage>, page: ChunkPage)
    ensures Text(pages + [page]) == Text(pages) + page.chunks
    decreases |pages|
  {
    if pages == [] {
      assert Text(pages + [page]) == page.chunks + Text([]);
    } else {
      assert (pages + [page])[1..] == pages[1..] + [page];
      TextAppend(pages[1..], page);
    }
  }

  lemma NextKeepsWindow(document: seq<Chunk>, pages: seq<ChunkPage>)
    requires IsWindow(document, pages) && Shown(pages, Next)
    ensures IsWindow(document, More(document, pages, Click(Next, false)))
    ensures End(pages) <= End(More(document, pages, Click(Next, false)))
  {
    var from, to := pages[0].offset, End(pages);
    var page := DocumentChunks(document, to, PAGE, None);
    TextAppend(pages, page);
    SliceAppend(document, from, to, to + |page.chunks|);
  }

  lemma PageBefore(document: seq<Chunk>, page: ChunkPage, pages: seq<ChunkPage>)
    requires IsWindow(document, pages) && page.offset % PAGE == 0 && page.offset <= pages[0].offset
    requires page.chunks == document[page.offset..pages[0].offset]
    ensures IsWindow(document, [page] + pages) && End([page] + pages) == End(pages)
  {
    var pages' := [page] + pages;
    assert pages'[1..] == pages && pages'[|pages'| - 1] == pages[|pages| - 1];
    SliceAppend(document, page.offset, pages[0].offset, End(pages));
  }

  lemma PreviousKeepsWindow(document: seq<Chunk>, pages: seq<ChunkPage>)
    requires IsWindow(document, pages) && Shown(pages, Previous)
    ensures var pages' := More(document, pages, Click(Previous, false));
            IsWindow(document, pages') && pages'[0].offset <= pages[0].offset && End(pages') == End(pages)
  {
    var from := pages[0].offset;
    PageBefore(document, DocumentChunks(document, from - PAGE, PAGE, None), pages);
  }

  lemma SliceAppend<T>(s: seq<T>, a: nat, b: nat, c: nat)
    requires a <= b <= c <= |s|
    ensures s[a..b] + s[b..c] == s[a..c]
  {}

  lemma ClickKeepsWindow(document: seq<Chunk>, pages: seq<ChunkPage>, click: Click)
    requires IsWindow(document, pages)
    ensures IsWindow(document, More(document, pages, click))
    ensures More(document, pages, click)[0].offset <= pages[0].offset && End(pages) <= End(More(document, pages, click))
  {
    if Shown(pages, click.direction) && !click.fails {
      if click.direction.Next? {
        NextKeepsWindow(document, pages);
      } else {
        PreviousKeepsWindow(document, pages);
      }
    }
  }

  lemma {:induction false} ClicksKeepWindow(document: seq<Chunk>, pages: seq<ChunkPage>, clicks: seq<Click>)
    requires IsWindow(document, pages)
    ensures IsWindow(document, Clicks(document, pages, clicks))
    ensures var pages' := Clicks(document, pages, clicks);
            pages'[0].offset <= pages[0].offset && End(pages) <= End(pages')
    decreases |clicks|
  {
    if clicks == [] {
    } else {
      ClickKeepsWindow(document, pages, clicks[0]);
      ClicksKeepWindow(document, More(document, pages, clicks[0]), clicks[1..]);
    }
  }

  function Landing(document: seq<Chunk>, cited: Option<string>): seq<ChunkPage> {
    [DocumentChunks(document, 0, PAGE, cited)]
  }

  lemma OnePageIsWindow(document: seq<Chunk>, page: ChunkPage)
    requires page.offset <= |document| && page.offset % PAGE == 0 && page.chunks == Rows(document, page.offset, PAGE)
    requires page.hasMore == (page.offset + |page.chunks| < |document|)
    ensures IsWindow(document, [page])
  {
    assert Text([page]) == page.chunks + Text([]);
  }

  lemma LandingIsWindow(document: seq<Chunk>, cited: Option<string>)
    requires IsDocument(document)
    ensures IsWindow(document, Landing(document, cited))
  {
    var page := DocumentChunks(document, 0, PAGE, cited);
    if k :| 0 <= k < |document| && cited == Some(document[k].id) {
      LandsOnChunk(document, k, 0, PAGE);
      var q :| IsMultiple(page.offset, q, PAGE);
    } else if cited.Some? {
      UnknownHasNoPosition(document, cited.value);
    }
    OnePageIsWindow(document, page);
  }

  lemma SliceIsDocument(document: seq<Chunk>, from: nat, to: nat)
    requires IsDocument(document) && from <= to <= |document|
    ensures IsDocument(document[from..to])
  {
    var slice := document[from..to];
    assert forall k :: 0 <= k < |slice| ==> slice[k] == document[from + k];
  }

  /** The slice reaches from at most the start of the landing page to at least its end. */
  lemma SliceHoldsCited(document: seq<Chunk>, k: nat, from: nat, to: nat)
    requires IsDocument(document) && k < |document| && from <= to <= |document|
    requires var landing := Landing(document, Some(document[k].id)); from <= landing[0].offset && End(landing) <= to
    ensures document[k] in document[from..to]
  {
    LandsOnChunk(document, k, 0, PAGE);
    assert document[from..to][k - from] == document[k];
  }

  /** After any clicks the viewer shows one contiguous slice of the document, each chunk once and in position
      order, and the cited chunk is in it if the document has one. */
  lemma ViewerShowsOneSlice(document: seq<Chunk>, cited: Option<string>, clicks: seq<Click>)
    requires IsDocument(document)
    ensures var pages := Clicks(document, Landing(document, cited), clicks);
            && pages[0].offset <= End(pages) <= |document|
            && Text(pages) == document[pages[0].offset..End(pages)]
            && IsDocument(Text(pages))
            && (pages[|pages| - 1].hasMore <==> End(pages) < |document|)
            && forall k :: 0 <= k < |document| && cited == Some(document[k].id) ==> document[k] in Text(pages)
  {
    var landing := Landing(document, cited);
    var pages := Clicks(document, landing, clicks);
    LandingIsWindow(document, cited);
    ClicksKeepWindow(document, landing, clicks);
    SliceIsDocument(document, pages[0].offset, End(pages));
    forall k | 0 <= k < |document| && cited == Some(document[k].id)
      ensures document[k] in document[pages[0].offset..End(pages)]
    {
      SliceHoldsCited(document, k, pages[0].offset, End(pages));
    }
  }

  /** A first page that started elsewhere would be repeated by "previous": the page added before it overlaps it
      exactly when it starts inside the first page of the document. */
  lemma PreviousNeedsAlignedPages(document: seq<Chunk>, first: ChunkPage)
    requires 0 < first.offset < |document| && IsDocument(document)
    ensures var added := More(document, [first], Click(Previous, false))[0];
            added.offset + |added.chunks| == first.offset <==> PAGE <= first.offset
  {}

  class TextViewer {
    var pages: seq<ChunkPage>
    var failed: bool

    /** The first request has been answered. */
    constructor (document: seq<Chunk>, cited: Option<string>)
      ensures pages == Landing(document, cited) && !failed
    {
      pages, failed := [DocumentChunks(document, 0, PAGE, cited)], false;
    }

    method Add(document: seq<Chunk>, click: Click)
      requires pages != [] && Shown(pages, click.direction)
      modifies this
      ensures pages == More(document, old(pages), click) && failed == (old(failed) || click.fails)
    {
      var edge := if click.direction.Next? then pages[|pages| - 1] else pages[0];
      var offset := if click.direction.Next? then edge.offset + |edge.chunks| else Max(0, edge.offset - PAGE);
      if click.fails {
        failed := true;
        return;
      }
      var page := DocumentChunks(document, offset, PAGE, None);
      pages := if click.direction.Next? then pages + [page] else [page] + pages;
    }
  }

  // ---------------------------------------------------------------- grouping by page

  datatype Group = Group(page: Option<int>, chunks: seq<Chunk>)

  function Grouped(groups: seq<Group>): seq<Chunk> {
    if groups == [] then [] else Grouped(groups[..|groups| - 1]) + groups[|groups| - 1].chunks
  }

  predicate IsRun(group: Group) {
    group.chunks != [] && forall k :: 0 <= k < |group.chunks| ==> group.chunks[k].pageNumber == group.page
  }

  /** Each group is a maximal run of chunks of one page. */
  predicate AreRuns(groups: seq<Group>) {
    && (forall g :: 0 <= g < |groups| ==> IsRun(groups[g]))
    && forall g :: 0 <= g < |groups| - 1 ==> groups[g].page != groups[g + 1].page
  }

  method GroupByPage(chunks: seq<Chunk>) returns (groups: seq<Group>)
    ensures Grouped(groups) == chunks && AreRuns(groups)
  {
    groups := [];
    for k := 0 to |chunks|
      invariant Grouped(groups) == chunks[..k] && AreRuns(groups)
    {
      var chunk, n := chunks[k], |groups|;
      assert chunks[..k + 1] == chunks[..k] + [chunk];
      if n > 0 && groups[n - 1].page == chunk.pageNumber {
        var last := groups[n - 1].(chunks := groups[n - 1].chunks + [chunk]);
        assert groups[n - 1 := last][..n - 1] == groups[..n - 1];
        groups := groups[n - 1 := last];
      } else {
        assert (groups + [Group(chunk.pageNumber, [chunk])])[..n] == groups;
        groups := groups + [Group(chunk.pageNumber, [chunk])];
      }
    }
    assert chunks[..|chunks|] == chunks;
  }
}

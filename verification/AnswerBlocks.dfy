/** File cards and directives of chat answers (frontend/app/answer-blocks.ts, directiveBlock, promoteFileCards
    and parseAnswerBlocks).

    Which text names a cited file is a parameter. What is proved is what becomes of the text: a card, a
    directive and the whole answer are compared, piece by piece and in order, with the Markdown they come from.
  */
module AnswerBlocks {
  import opened Common
  import opened AnswerMarkdown

  // ---------------------------------------------------------------- text

  /** A text made of the given lines: all of it, or, of "name: summary", one half. */
  datatype Text = Whole(lines: seq<Line>) | NamePart(lines: seq<Line>) | SummaryPart(lines: seq<Line>)

  /** An empty text: a lone list marker with nothing after it. */
  predicate IsEmpty(lines: seq<Line>) {
    lines == [] || (|lines| == 1 && lines[0].hollow)
  }

  /** The halves of a text, so that a text and its two halves one after the other compare equal. */
  function TextPieces(text: Text): seq<Text> {
    if !text.Whole? then [text]
    else if IsEmpty(text.lines) then []
    else [NamePart(text.lines), SummaryPart(text.lines)]
  }

  function LinesPieces(lines: seq<Line>): seq<Text> {
    if lines == [] then [] else TextPieces(Whole([lines[0]])) + LinesPieces(lines[1..])
  }

  function ParagraphsPieces(paragraphs: seq<seq<Line>>): seq<Text> {
    if paragraphs == [] then [] else TextPieces(Whole(paragraphs[0])) + ParagraphsPieces(paragraphs[1..])
  }

  function ItemPieces(item: ListItem): seq<Text> {
    TextPieces(Whole(item.text)) + LinesPieces(item.sub) + ParagraphsPieces(item.paragraphs)
  }

  function ItemsPieces(items: seq<ListItem>): seq<Text> {
    if items == [] then [] else ItemPieces(items[0]) + ItemsPieces(items[1..])
  }

  function BlockPieces(block: Block): seq<Text> {
    match block
    case Heading(_, line) => TextPieces(Whole([line]))
    case Paragraph(lines) => TextPieces(Whole(lines))
    case List(_, _, items) => ItemsPieces(items)
    case Fields(entries) => LinesPieces(entries)
    case Table(header, rows) => LinesPieces([header] + rows)
  }

  function BlocksPieces(blocks: seq<Block>): seq<Text> {
    if blocks == [] then [] else BlockPieces(blocks[0]) + BlocksPieces(blocks[1..])
  }

  // ---------------------------------------------------------------- blocks of an answer

  datatype Flat =
    | Plain(block: Block)
    | Lead(text: Text) // a paragraph made from an item's text
    | Highlight(children: seq<Block>)
    | Steps(start: nat, items: seq<ListItem>)

  datatype AnswerBlock = Other(content: Flat) | File(name: Text, children: seq<Flat>)

  function FlatPieces(content: Flat): seq<Text> {
    match content
    case Plain(block) => BlockPieces(block)
    case Lead(text) => TextPieces(text)
    case Highlight(children) => BlocksPieces(children)
    case Steps(_, items) => ItemsPieces(items)
  }

  function ChildrenPieces(children: seq<Flat>): seq<Text> {
    if children == [] then [] else FlatPieces(children[0]) + ChildrenPieces(children[1..])
  }

  function AnswerPieces(block: AnswerBlock): seq<Text> {
    match block
    case Other(content) => FlatPieces(content)
    case File(name, children) => TextPieces(name) + ChildrenPieces(children)
  }

  function Pieces(blocks: seq<AnswerBlock>): seq<Text> {
    if blocks == [] then [] else AnswerPieces(blocks[0]) + Pieces(blocks[1..])
  }

  lemma {:induction false} PiecesAppend(a: seq<AnswerBlock>, b: seq<AnswerBlock>)
    ensures Pieces(a + b) == Pieces(a) + Pieces(b)
    decreases |a|
  {
    if a == [] {
      assert a + b == b;
    } else {
      assert (a + b)[1..] == a[1..] + b;
      PiecesAppend(a[1..], b);
    }
  }

  lemma {:induction false} ItemsPiecesAppend(a: seq<ListItem>, b: seq<ListItem>)
    ensures ItemsPieces(a + b) == ItemsPieces(a) + ItemsPieces(b)
    decreases |a|
  {
    if a == [] {
      assert a + b == b;
    } else {
      assert (a + b)[1..] == a[1..] + b;
      ItemsPiecesAppend(a[1..], b);
    }
  }

  lemma OneItem(item: ListItem)
    ensures ItemsPieces([item]) == ItemPieces(item)
  {
    assert [item][1..] == [];
  }

  lemma OneBlock(block: AnswerBlock)
    ensures Pieces([block]) == AnswerPieces(block)
  {
    assert [block][1..] == [];
  }

  lemma FirstBlock(block: AnswerBlock, rest: seq<AnswerBlock>)
    ensures Pieces([block] + rest) == AnswerPieces(block) + Pieces(rest)
  {
    assert ([block] + rest)[1..] == rest;
  }

  // ---------------------------------------------------------------- cards out of a list

  /** What an item's text says about a file: nothing, just its name, or its name and a summary. */
  datatype Header = NoFile | NameOnly | WithSummary

  /** The cited documents, by what they make of an item's text and of a heading. */
  datatype Names = Names(headerOf: seq<Line> -> Header, isFile: Line -> bool)

  /** There is no summary in an empty text. */
  ghost predicate AreNames(names: Names) {
    forall text :: names.headerOf(text) == WithSummary ==> !IsEmpty(text)
  }

  /** The card being collected. */
  datatype Draft = Draft(name: Text, lead: Option<Text>, details: seq<ListItem>)

  function SubItems(sub: seq<Line>): (items: seq<ListItem>)
    ensures |items| == |sub| && forall k :: 0 <= k < |sub| ==> items[k] == ListItem([sub[k]], [], [])
  {
    seq(|sub|, k requires 0 <= k < |sub| => ListItem([sub[k]], [], []))
  }

  function OpenCard(names: Names, item: ListItem): Draft {
    if names.headerOf(item.text) == WithSummary then
      Draft(NamePart(item.text), Some(SummaryPart(item.text)), SubItems(item.sub))
    else Draft(Whole(item.text), None, SubItems(item.sub))
  }

  /** The first detail of a name-only header becomes the lead. */
  function TakeLead(draft: Draft): Draft {
    if draft.lead.None? && draft.details != [] && draft.details[0].sub == [] then
      var text := draft.details[0].text;
      Draft(draft.name, if IsEmpty(text) then None else Some(Whole(text)), draft.details[1..])
    else draft
  }

  function DetailsList(details: seq<ListItem>): seq<Flat> {
    if details == [] then [] else [Plain(List(false, 1, details))]
  }

  function Emit(draft: Draft): AnswerBlock {
    var card := TakeLead(draft);
    File(card.name, (if card.lead.Some? then [Lead(card.lead.value)] else []) + DetailsList(card.details))
  }

  predicate IsHeader(names: Names, items: seq<ListItem>, j: nat)
    requires j < |items|
  {
    names.headerOf(items[j].text) != NoFile
  }

  function NextHeader(names: Names, items: seq<ListItem>, j: nat): (e: nat)
    requires j <= |items|
    ensures j <= e <= |items| && (e < |items| ==> IsHeader(names, items, e))
    ensures forall k :: j <= k < e ==> !IsHeader(names, items, k)
    decreases |items| - j
  {
    if j < |items| && !IsHeader(names, items, j) then NextHeader(names, items, j + 1) else j
  }

  /** The card of a header item and of the items up to the next header. */
  function CardOf(names: Names, item: ListItem, following: seq<ListItem>): AnswerBlock {
    var draft := OpenCard(names, item);
    Emit(draft.(details := draft.details + following))
  }

  /** One card for each header item from `j` on. */
  function Cards(names: Names, items: seq<ListItem>, j: nat): seq<AnswerBlock>
    requires j <= |items|
    decreases |items| - j
  {
    if j == |items| then []
    else
      var e := NextHeader(names, items, j + 1);
      [CardOf(names, items[j], items[j + 1..e])] + Cards(names, items, e)
  }

  /** A detail that becomes the lead of its card: it comes right after a bare file name, and neither has sub-items. */
  predicate IsLead(names: Names, items: seq<ListItem>, j: nat)
    requires j < |items|
  {
    j > 0 && !IsHeader(names, items, j) && names.headerOf(items[j - 1].text) == NameOnly
    && items[j - 1].sub == [] && items[j].sub == []
  }

  predicate HasFurtherText(item: ListItem) {
    exists k :: 0 <= k < |item.paragraphs| && !IsEmpty(item.paragraphs[k])
  }

  predicate KeepsItem(names: Names, items: seq<ListItem>, j: nat)
    requires j < |items|
  {
    (IsHeader(names, items, j) || IsLead(names, items, j)) ==> !HasFurtherText(items[j])
  }

  /** No header and no lead has paragraphs of its own. */
  predicate CardsKeepAll(names: Names, items: seq<ListItem>) {
    forall j :: 0 <= j < |items| ==> KeepsItem(names, items, j)
  }

  /** The items as their cards hold them: headers and leads without paragraphs. */
  function Kept(names: Names, items: seq<ListItem>): (kept: seq<ListItem>)
    ensures |kept| == |items|
  {
    seq(|items|, j requires 0 <= j < |items| =>
      if IsHeader(names, items, j) || IsLead(names, items, j) then items[j].(paragraphs := []) else items[j])
  }

  lemma {:induction false} SubItemsPieces(sub: seq<Line>)
    ensures ItemsPieces(SubItems(sub)) == LinesPieces(sub)
    decreases |sub|
  {
    if sub == [] {
    } else {
      SubItemsPieces(sub[1..]);
      assert SubItems(sub)[1..] == SubItems(sub[1..]);
      assert ItemPieces(ListItem([sub[0]], [], [])) == TextPieces(Whole([sub[0]]));
    }
  }

  lemma ListPieces(details: seq<ListItem>)
    ensures ChildrenPieces(DetailsList(details)) == ItemsPieces(details)
  {
    if details != [] {
      var child := Plain(List(false, 1, details));
      assert [child][1..] == [];
      assert ChildrenPieces([child]) == FlatPieces(child) + ChildrenPieces([]);
    }
  }

  /** The items of a draft as its card holds them: without the paragraphs of the one that leads. */
  function WithoutLead(draft: Draft): seq<ListItem> {
    if draft.lead.None? && draft.details != [] && draft.details[0].sub == [] then
      [draft.details[0].(paragraphs := [])] + draft.details[1..]
    else draft.details
  }

  function LeadPieces(lead: Option<Text>): seq<Text> {
    if lead.Some? then TextPieces(lead.value) else []
  }

  lemma CardChildren(lead: Option<Text>, details: seq<ListItem>)
    ensures ChildrenPieces((if lead.Some? then [Lead(lead.value)] else []) + DetailsList(details)) ==
            LeadPieces(lead) + ItemsPieces(details)
  {
    ListPieces(details);
    var list := DetailsList(details);
    if lead.Some? {
      assert ([Lead(lead.value)] + list)[1..] == list;
    } else {
      assert [] + list == list;
    }
  }

  /** An item's pieces, apart from its paragraphs. */
  lemma WithoutParagraphs(item: ListItem)
    ensures ItemPieces(item.(paragraphs := [])) == TextPieces(Whole(item.text)) + LinesPieces(item.sub)
    ensures ItemPieces(item) == ItemPieces(item.(paragraphs := [])) + ParagraphsPieces(item.paragraphs)
  {}

  lemma LeadComesFirst(draft: Draft)
    ensures LeadPieces(TakeLead(draft).lead) + ItemsPieces(TakeLead(draft).details) ==
            LeadPieces(draft.lead) + ItemsPieces(WithoutLead(draft))
  {
    if draft.lead.None? && draft.details != [] && draft.details[0].sub == [] {
      var first := draft.details[0].(paragraphs := []);
      WithoutParagraphs(draft.details[0]);
      assert ([first] + draft.details[1..])[1..] == draft.details[1..];
    }
  }

  lemma EmitPieces(draft: Draft)
    ensures AnswerPieces(Emit(draft)) ==
            TextPieces(draft.name) + (LeadPieces(draft.lead) + ItemsPieces(WithoutLead(draft)))
  {
    CardChildren(TakeLead(draft).lead, TakeLead(draft).details);
    LeadComesFirst(draft);
  }

  /** The following items of a header, as its card holds them. */
  function Following(names: Names, item: ListItem, following: seq<ListItem>): seq<ListItem> {
    if names.headerOf(item.text) == NameOnly && item.sub == [] && following != [] && following[0].sub == [] then
      [following[0].(paragraphs := [])] + following[1..]
    else following
  }

  lemma LeadOfFollowing(names: Names, item: ListItem, following: seq<ListItem>)
    requires names.headerOf(item.text) != NoFile
    ensures WithoutLead(OpenCard(names, item).(details := SubItems(item.sub) + following)) ==
            SubItems(item.sub) + Following(names, item, following)
  {
    var sub := SubItems(item.sub);
    if item.sub != [] {
      assert sub[0].(paragraphs := []) == sub[0];
    } else {
      assert sub + following == following;
    }
  }

  lemma HeaderPieces(names: Names, item: ListItem)
    requires AreNames(names)
    ensures TextPieces(OpenCard(names, item).name) + LeadPieces(OpenCard(names, item).lead) ==
            TextPieces(Whole(item.text))
  {}

  lemma Regroup<T>(name: seq<T>, lead: seq<T>, sub: seq<T>, rest: seq<T>)
    ensures name + (lead + (sub + rest)) == name + lead + sub + rest
  {}

  lemma CardPieces(names: Names, item: ListItem, following: seq<ListItem>)
    requires AreNames(names) && names.headerOf(item.text) != NoFile
    ensures AnswerPieces(CardOf(names, item, following)) ==
            ItemPieces(item.(paragraphs := [])) + ItemsPieces(Following(names, item, following))
  {
    var sub, rest := SubItems(item.sub), Following(names, item, following);
    var draft := OpenCard(names, item);
    EmitPieces(draft.(details := draft.details + following));
    LeadOfFollowing(names, item, following);
    ItemsPiecesAppend(sub, rest);
    SubItemsPieces(item.sub);
    Regroup(TextPieces(draft.name), LeadPieces(draft.lead), LinesPieces(item.sub), ItemsPieces(rest));
    HeaderPieces(names, item);
    WithoutParagraphs(item);
  }

  lemma KeptGroup(names: Names, items: seq<ListItem>, j: nat, e: nat)
    requires j < e <= |items| && IsHeader(names, items, j)
    requires forall k :: j < k < e ==> !IsHeader(names, items, k)
    ensures Kept(names, items)[j..e] == [items[j].(paragraphs := [])] + Following(names, items[j], items[j + 1..e])
  {
    var kept, following := Kept(names, items), items[j + 1..e];
    forall k | j + 2 <= k < e ensures kept[k] == items[k] {
      assert !IsHeader(names, items, k - 1);
    }
  }

  lemma CardsFirst(names: Names, items: seq<ListItem>, j: nat)
    requires j < |items|
    ensures var e := NextHeader(names, items, j + 1);
            Pieces(Cards(names, items, j)) ==
            AnswerPieces(CardOf(names, items[j], items[j + 1..e])) + Pieces(Cards(names, items, e))
  {
    var e := NextHeader(names, items, j + 1);
    FirstBlock(CardOf(names, items[j], items[j + 1..e]), Cards(names, items, e));
  }

  lemma KeptPieces(names: Names, items: seq<ListItem>, j: nat, e: nat)
    requires j < e <= |items| && IsHeader(names, items, j)
    requires forall k :: j < k < e ==> !IsHeader(names, items, k)
    ensures ItemsPieces(Kept(names, items)[j..]) ==
            ItemPieces(items[j].(paragraphs := [])) + ItemsPieces(Following(names, items[j], items[j + 1..e]))
            + ItemsPieces(Kept(names, items)[e..])
  {
    var kept := Kept(names, items);
    var header, following := items[j].(paragraphs := []), Following(names, items[j], items[j + 1..e]);
    KeptGroup(names, items, j, e);
    assert kept[j..] == kept[j..e] + kept[e..];
    ItemsPiecesAppend([header] + following, kept[e..]);
    ItemsPiecesAppend([header], following);
    OneItem(header);
  }

  /** What the cards of the items from `j` on hold. */
  predicate CardsKeep(names: Names, items: seq<ListItem>, j: nat) {
    j <= |items| && Pieces(Cards(names, items, j)) == ItemsPieces(Kept(names, items)[j..])
  }

  /** Every item of a promoted list is in exactly one card, in order, under the nearest header; only the paragraphs
      of headers and leads are left out. */
  lemma {:induction false} CardsKeepItems(names: Names, items: seq<ListItem>, j: nat)
    requires AreNames(names) && j <= |items| && (j < |items| ==> IsHeader(names, items, j))
    ensures CardsKeep(names, items, j)
    decreases |items| - j
  {
    if j < |items| {
      var e := NextHeader(names, items, j + 1);
      CardsKeepItems(names, items, e);
      CardsFirst(names, items, j);
      CardPieces(names, items[j], items[j + 1..e]);
      KeptPieces(names, items, j, e);
    }
  }

  lemma {:induction false} NoFurtherText(paragraphs: seq<seq<Line>>)
    ensures ParagraphsPieces(paragraphs) == [] <==> forall k :: 0 <= k < |paragraphs| ==> IsEmpty(paragraphs[k])
    decreases |paragraphs|
  {
    if paragraphs == [] {
    } else {
      NoFurtherText(paragraphs[1..]);
      assert forall k :: 1 <= k < |paragraphs| ==> paragraphs[1..][k - 1] == paragraphs[k];
    }
  }

  /** `kept` is at most as long as `all`, as long if and only if `exact`, and then the same. */
  ghost predicate Within(kept: seq<Text>, all: seq<Text>, exact: bool) {
    |kept| <= |all| && (exact <==> |kept| == |all|) && (exact ==> kept == all)
  }

  lemma WithinAppend(kept: seq<Text>, all: seq<Text>, exact: bool, kept': seq<Text>, all': seq<Text>, exact': bool)
    requires Within(kept, all, exact) && Within(kept', all', exact')
    ensures Within(kept + kept', all + all', exact && exact')
  {}

  lemma KeptItem(names: Names, items: seq<ListItem>, j: nat)
    requires j < |items|
    ensures Within(ItemPieces(Kept(names, items)[j]), ItemPieces(items[j]), KeepsItem(names, items, j))
  {
    NoFurtherText(items[j].paragraphs);
    WithoutParagraphs(items[j]);
  }

  ghost predicate KeepsFrom(names: Names, items: seq<ListItem>, j: nat) {
    forall k :: j <= k < |items| ==> KeepsItem(names, items, k)
  }

  lemma {:induction false} KeptMeaning(names: Names, items: seq<ListItem>, j: nat)
    requires j <= |items|
    ensures Within(ItemsPieces(Kept(names, items)[j..]), ItemsPieces(items[j..]), KeepsFrom(names, items, j))
    decreases |items| - j
  {
    var kept := Kept(names, items);
    if j < |items| {
      KeptMeaning(names, items, j + 1);
      KeptItem(names, items, j);
      WithinAppend(ItemPieces(kept[j]), ItemPieces(items[j]), KeepsItem(names, items, j),
                   ItemsPieces(kept[j + 1..]), ItemsPieces(items[j + 1..]), KeepsFrom(names, items, j + 1));
      FirstItem(items[j], items[j..]);
      FirstItem(kept[j], kept[j..]);
      assert items[j..][1..] == items[j + 1..] && kept[j..][1..] == kept[j + 1..];
      assert KeepsFrom(names, items, j) <==> KeepsItem(names, items, j) && KeepsFrom(names, items, j + 1);
    } else {
      assert items[j..] == kept[j..];
    }
  }

  lemma FirstItem(item: ListItem, items: seq<ListItem>)
    requires items != [] && items[0] == item
    ensures ItemsPieces(items) == ItemPieces(item) + ItemsPieces(items[1..])
  {}

  /** The cards of a list hold exactly its text, in order, if and only if no header and no lead has further
      paragraphs. */
  lemma CardsLoseNothing(names: Names, items: seq<ListItem>)
    requires AreNames(names) && items != [] && IsHeader(names, items, 0)
    ensures Within(Pieces(Cards(names, items, 0)), ItemsPieces(items), CardsKeepAll(names, items))
    ensures Pieces(Cards(names, items, 0)) == ItemsPieces(items) <==> CardsKeepAll(names, items)
  {
    CardsKeepItems(names, items, 0);
    KeptMeaning(names, items, 0);
    assert items[0..] == items && Kept(names, items)[0..] == Kept(names, items);
    assert KeepsFrom(names, items, 0) <==> CardsKeepAll(names, items);
  }

  /** For one, a bare file name followed by a paragraph of its own loses that paragraph. */
  lemma HeaderLosesParagraph(name: Line, paragraph: Line)
    requires !name.hollow && !paragraph.hollow
    ensures var names, item := Names(_ => NameOnly, _ => false), ListItem([name], [], [[paragraph]]);
            AreNames(names) && Pieces(Cards(names, [item], 0)) != ItemsPieces([item])
  {
    var names, items := Names(_ => NameOnly, _ => false), [ListItem([name], [], [[paragraph]])];
    assert HasFurtherText(items[0]) by {
      assert !IsEmpty(items[0].paragraphs[0]);
    }
    assert !KeepsItem(names, items, 0);
    CardsLoseNothing(names, items);
  }

  // ---------------------------------------------------------------- promotion

  /** A heading that names a cited file. */
  predicate IsFileHeading(names: Names, block: AnswerBlock) {
    block.Other? && block.content.Plain? && block.content.block.Heading?
    && block.content.block.level >= 3 && names.isFile(block.content.block.line)
  }

  predicate AllSummaries(names: Names, items: seq<ListItem>) {
    forall k :: 0 <= k < |items| ==> names.headerOf(items[k].text) == WithSummary
  }

  predicate SomeNameOnly(names: Names, items: seq<ListItem>) {
    exists k :: 0 <= k < |items| && names.headerOf(items[k].text) == NameOnly
  }

  /** An unordered list that starts with a file and either has only files with summaries or some bare file name. */
  predicate IsFileList(names: Names, block: AnswerBlock) {
    block.Other? && block.content.Plain? && block.content.block.List? && !block.content.block.ordered
    && block.content.block.items != [] && IsHeader(names, block.content.block.items, 0)
    && (AllSummaries(names, block.content.block.items) || SomeNameOnly(names, block.content.block.items))
  }

  /** What ends the card of a file heading. */
  predicate EndsCard(block: AnswerBlock) {
    block.File? || (block.content.Plain? && block.content.block.Heading?)
  }

  function CardEnd(blocks: seq<AnswerBlock>, i: nat): (e: nat)
    requires i <= |blocks|
    ensures i <= e <= |blocks| && (forall k :: i <= k < e ==> !EndsCard(blocks[k]))
    ensures e < |blocks| ==> EndsCard(blocks[e])
    decreases |blocks| - i
  {
    if i < |blocks| && !EndsCard(blocks[i]) then CardEnd(blocks, i + 1) else i
  }

  function Contents(blocks: seq<AnswerBlock>): (contents: seq<Flat>)
    requires forall k :: 0 <= k < |blocks| ==> blocks[k].Other?
    ensures |contents| == |blocks| && forall k :: 0 <= k < |blocks| ==> contents[k] == blocks[k].content
  {
    seq(|blocks|, k requires 0 <= k < |blocks| => blocks[k].content)
  }

  /** The blocks from `i` on, promoted. */
  function Promoted(names: Names, blocks: seq<AnswerBlock>, i: nat): seq<AnswerBlock>
    requires i <= |blocks|
    decreases |blocks| - i
  {
    if i == |blocks| then []
    else if IsFileHeading(names, blocks[i]) then
      var e := CardEnd(blocks, i + 1);
      [File(Whole([blocks[i].content.block.line]), Contents(blocks[i + 1..e]))] + Promoted(names, blocks, e)
    else if IsFileList(names, blocks[i]) then
      Cards(names, blocks[i].content.block.items, 0) + Promoted(names, blocks, i + 1)
    else [blocks[i]] + Promoted(names, blocks, i + 1)
  }

  /** A block that the card of a file heading takes in as it is: that heading is the last heading or file before it. */
  ghost predicate InHeadingCard(names: Names, blocks: seq<AnswerBlock>, i: nat)
    requires i < |blocks|
  {
    !EndsCard(blocks[i])
    && exists h: nat :: h < i && IsFileHeading(names, blocks[h]) && forall k :: h < k < i ==> !EndsCard(blocks[k])
  }

  /** What becomes of the text of one block, wherever it stands. */
  ghost predicate KeepsBlock(names: Names, blocks: seq<AnswerBlock>, i: nat)
    requires i < |blocks|
  {
    IsFileList(names, blocks[i]) && !InHeadingCard(names, blocks, i) ==>
      CardsKeepAll(names, blocks[i].content.block.items)
  }

  ghost predicate KeepsBlocks(names: Names, blocks: seq<AnswerBlock>, i: nat) {
    forall k :: i <= k < |blocks| ==> KeepsBlock(names, blocks, k)
  }

  /** Promotion has come to `i` with no heading's card open. */
  ghost predicate NoCardOpen(names: Names, blocks: seq<AnswerBlock>, i: nat) {
    i < |blocks| ==> !InHeadingCard(names, blocks, i)
  }

  lemma CardStaysClosed(names: Names, blocks: seq<AnswerBlock>, i: nat)
    requires i < |blocks| && NoCardOpen(names, blocks, i) && !IsFileHeading(names, blocks[i])
    ensures NoCardOpen(names, blocks, i + 1)
  {}

  lemma HeadingTakesBlocks(names: Names, blocks: seq<AnswerBlock>, i: nat)
    requires i < |blocks| && IsFileHeading(names, blocks[i])
    ensures var e := CardEnd(blocks, i + 1);
            && NoCardOpen(names, blocks, e) && (KeepsBlocks(names, blocks, i) <==> KeepsBlocks(names, blocks, e))
  {
    var e := CardEnd(blocks, i + 1);
    forall k | i < k < e ensures KeepsBlock(names, blocks, k) {
      assert InHeadingCard(names, blocks, k);
    }
    assert KeepsBlock(names, blocks, i);
  }

  lemma {:induction false} ContentsPieces(blocks: seq<AnswerBlock>)
    requires forall k :: 0 <= k < |blocks| ==> blocks[k].Other?
    ensures ChildrenPieces(Contents(blocks)) == Pieces(blocks)
    decreases |blocks|
  {
    if blocks == [] {
    } else {
      ContentsPieces(blocks[1..]);
      assert Contents(blocks)[1..] == Contents(blocks[1..]);
    }
  }

  lemma HeadingPieces(names: Names, block: AnswerBlock, children: seq<Flat>)
    requires IsFileHeading(names, block)
    ensures AnswerPieces(File(Whole([block.content.block.line]), children)) ==
            AnswerPieces(block) + ChildrenPieces(children)
  {}

  ghost predicate PromotionKeeps(names: Names, blocks: seq<AnswerBlock>, i: nat) {
    i <= |blocks| && Within(Pieces(Promoted(names, blocks, i)), Pieces(blocks[i..]), KeepsBlocks(names, blocks, i))
  }

  lemma PiecesOf(blocks: seq<AnswerBlock>, a: seq<AnswerBlock>, b: seq<AnswerBlock>)
    requires blocks == a + b
    ensures Pieces(blocks) == Pieces(a) + Pieces(b)
  {
    PiecesAppend(a, b);
  }

  lemma PiecesSplit(blocks: seq<AnswerBlock>, i: nat, e: nat)
    requires i <= e <= |blocks|
    ensures Pieces(blocks[i..]) == Pieces(blocks[i..e]) + Pieces(blocks[e..])
  {
    PiecesOf(blocks[i..], blocks[i..e], blocks[e..]);
  }

  lemma HeadingCardPieces(names: Names, heading: AnswerBlock, rest: seq<AnswerBlock>)
    requires IsFileHeading(names, heading) && forall k :: 0 <= k < |rest| ==> rest[k].Other?
    ensures AnswerPieces(File(Whole([heading.content.block.line]), Contents(rest))) == Pieces([heading] + rest)
  {
    HeadingPieces(names, heading, Contents(rest));
    ContentsPieces(rest);
    FirstBlock(heading, rest);
  }

  /** `result` is what promotion makes of the blocks from `i` to `e`. */
  predicate IsStep(names: Names, blocks: seq<AnswerBlock>, i: nat, e: nat, result: seq<AnswerBlock>) {
    i < e <= |blocks| && Promoted(names, blocks, i) == result + Promoted(names, blocks, e)
  }

  lemma PromotionStep(names: Names, blocks: seq<AnswerBlock>, i: nat, e: nat, result: seq<AnswerBlock>,
                      exact: bool, restExact: bool)
    requires IsStep(names, blocks, i, e, result)
    requires Within(Pieces(result), Pieces(blocks[i..e]), exact)
    requires Within(Pieces(Promoted(names, blocks, e)), Pieces(blocks[e..]), restExact)
    ensures Within(Pieces(Promoted(names, blocks, i)), Pieces(blocks[i..]), exact && restExact)
  {
    PiecesSplit(blocks, i, e);
    PiecesAppend(result, Promoted(names, blocks, e));
    WithinAppend(Pieces(result), Pieces(blocks[i..e]), exact,
                 Pieces(Promoted(names, blocks, e)), Pieces(blocks[e..]), restExact);
  }

  lemma HeadingStep(names: Names, blocks: seq<AnswerBlock>, i: nat, restExact: bool)
    requires i < |blocks| && IsFileHeading(names, blocks[i])
    requires var e := CardEnd(blocks, i + 1);
             Within(Pieces(Promoted(names, blocks, e)), Pieces(blocks[e..]), restExact)
    ensures Within(Pieces(Promoted(names, blocks, i)), Pieces(blocks[i..]), restExact)
  {
    var e := CardEnd(blocks, i + 1);
    var card := File(Whole([blocks[i].content.block.line]), Contents(blocks[i + 1..e]));
    HeadingCardPieces(names, blocks[i], blocks[i + 1..e]);
    assert [blocks[i]] + blocks[i + 1..e] == blocks[i..e];
    OneBlock(card);
    PromotionStep(names, blocks, i, e, [card], true, restExact);
  }

  lemma KeepsFirst(names: Names, blocks: seq<AnswerBlock>, i: nat)
    requires i < |blocks|
    ensures KeepsBlocks(names, blocks, i) <==> KeepsBlock(names, blocks, i) && KeepsBlocks(names, blocks, i + 1)
  {}

  lemma ListKeeps(names: Names, blocks: seq<AnswerBlock>, i: nat)
    requires AreNames(names) && i < |blocks| && IsFileList(names, blocks[i]) && NoCardOpen(names, blocks, i)
    ensures Within(Pieces(Cards(names, blocks[i].content.block.items, 0)), Pieces(blocks[i..i + 1]),
                   KeepsBlock(names, blocks, i))
  {
    assert blocks[i..i + 1] == [blocks[i]];
    OneBlock(blocks[i]);
    CardsLoseNothing(names, blocks[i].content.block.items);
  }

  lemma ListIsStep(names: Names, blocks: seq<AnswerBlock>, i: nat)
    requires i < |blocks| && IsFileList(names, blocks[i]) && !IsFileHeading(names, blocks[i])
    ensures IsStep(names, blocks, i, i + 1, Cards(names, blocks[i].content.block.items, 0))
  {}

  lemma ListStepKeeps(names: Names, blocks: seq<AnswerBlock>, i: nat)
    requires AreNames(names) && i < |blocks| && IsFileList(names, blocks[i]) && !IsFileHeading(names, blocks[i])
    requires NoCardOpen(names, blocks, i) && PromotionKeeps(names, blocks, i + 1)
    ensures PromotionKeeps(names, blocks, i)
  {
    ListKeeps(names, blocks, i);
    ListIsStep(names, blocks, i);
    KeepsFirst(names, blocks, i);
    PromotionStep(names, blocks, i, i + 1, Cards(names, blocks[i].content.block.items, 0),
                  KeepsBlock(names, blocks, i), KeepsBlocks(names, blocks, i + 1));
  }

  lemma OtherStep(names: Names, blocks: seq<AnswerBlock>, i: nat)
    requires i < |blocks| && !IsFileHeading(names, blocks[i]) && !IsFileList(names, blocks[i])
    requires PromotionKeeps(names, blocks, i + 1)
    ensures PromotionKeeps(names, blocks, i)
  {
    assert blocks[i..i + 1] == [blocks[i]];
    KeepsFirst(names, blocks, i);
    PromotionStep(names, blocks, i, i + 1, [blocks[i]], true, KeepsBlocks(names, blocks, i + 1));
  }

  lemma {:induction false} PromotionFrom(names: Names, blocks: seq<AnswerBlock>, i: nat)
    requires AreNames(names) && i <= |blocks| && NoCardOpen(names, blocks, i)
    ensures PromotionKeeps(names, blocks, i)
    decreases |blocks| - i
  {
    if i == |blocks| {
      assert blocks[i..] == [];
    } else if IsFileHeading(names, blocks[i]) {
      HeadingTakesBlocks(names, blocks, i);
      PromotionFrom(names, blocks, CardEnd(blocks, i + 1));
      HeadingStep(names, blocks, i, KeepsBlocks(names, blocks, CardEnd(blocks, i + 1)));
    } else {
      CardStaysClosed(names, blocks, i);
      PromotionFrom(names, blocks, i + 1);
      if IsFileList(names, blocks[i]) {
        ListStepKeeps(names, blocks, i);
      } else {
        OtherStep(names, blocks, i);
      }
    }
  }

  /** Promotion keeps the text of an answer, in order, if and only if, in every list it turns into cards, no header
      and no lead has further paragraphs. */
  lemma PromotionLosesNothing(names: Names, blocks: seq<AnswerBlock>)
    requires AreNames(names)
    ensures Within(Pieces(Promoted(names, blocks, 0)), Pieces(blocks), KeepsBlocks(names, blocks, 0))
    ensures Pieces(Promoted(names, blocks, 0)) == Pieces(blocks) <==> KeepsBlocks(names, blocks, 0)
  {
    PromotionFrom(names, blocks, 0);
    assert blocks[0..] == blocks;
  }

  /** Without file headings and file lists the blocks stay as they are; so they do when no file is known. */
  lemma {:induction false} NothingToPromote(names: Names, blocks: seq<AnswerBlock>, i: nat)
    requires i <= |blocks|
    requires forall k :: i <= k < |blocks| ==> !IsFileHeading(names, blocks[k]) && !IsFileList(names, blocks[k])
    ensures Promoted(names, blocks, i) == blocks[i..]
    decreases |blocks| - i
  {
    if i < |blocks| {
      NothingToPromote(names, blocks, i + 1);
    }
  }

  /** Promotion leaves no file heading outside the cards, and only file lists that come from a card. */
  lemma {:induction false} PromotedOnce(names: Names, blocks: seq<AnswerBlock>, i: nat)
    requires i <= |blocks|
    ensures forall block :: block in Promoted(names, blocks, i) ==>
              !IsFileHeading(names, block) && !IsFileList(names, block)
    decreases |blocks| - i
  {
    if i < |blocks| {
      if IsFileHeading(names, blocks[i]) {
        PromotedOnce(names, blocks, CardEnd(blocks, i + 1));
      } else {
        PromotedOnce(names, blocks, i + 1);
        if IsFileList(names, blocks[i]) {
          CardsAreFiles(names, blocks[i].content.block.items, 0);
        }
      }
    }
  }

  lemma {:induction false} CardsAreFiles(names: Names, items: seq<ListItem>, j: nat)
    requires j <= |items|
    ensures forall block :: block in Cards(names, items, j) ==> block.File?
    decreases |items| - j
  {
    if j < |items| {
      CardsAreFiles(names, items, NextHeader(names, items, j + 1));
    }
  }

  /** Promoting again changes nothing. */
  lemma PromotionIsIdempotent(names: Names, blocks: seq<AnswerBlock>)
    ensures Promoted(names, Promoted(names, blocks, 0), 0) == Promoted(names, blocks, 0)
  {
    PromotedOnce(names, blocks, 0);
    NothingToPromote(names, Promoted(names, blocks, 0), 0);
  }

  // ---------------------------------------------------------------- the loops

  lemma RowCard(names: Names, items: seq<ListItem>, i: nat)
    requires i < |items| && AllSummaries(names, items)
    ensures var item := items[i];
            Cards(names, items, i) ==
            [File(NamePart(item.text), [Lead(SummaryPart(item.text))] + DetailsList(SubItems(item.sub)))]
            + Cards(names, items, i + 1)
  {
    assert NextHeader(names, items, i + 1) == i + 1 && items[i + 1..i + 1] == [];
    assert SubItems(items[i].sub) + [] == SubItems(items[i].sub);
  }

  /** A list of files with summaries: one card per item. */
  method RowCards(names: Names, items: seq<ListItem>) returns (cards: seq<AnswerBlock>)
    requires AllSummaries(names, items)
    ensures cards == Cards(names, items, 0)
  {
    cards := [];
    for i := 0 to |items|
      invariant cards + Cards(names, items, i) == Cards(names, items, 0)
    {
      var item := items[i];
      RowCard(names, items, i);
      cards := cards + [File(NamePart(item.text), [Lead(SummaryPart(item.text))] + DetailsList(SubItems(item.sub)))];
    }
  }

  /** The cards emitted before item `i`. */
  ghost predicate Emitted(names: Names, items: seq<ListItem>, cards: seq<AnswerBlock>, i: nat) {
    i <= |items| && cards + Cards(names, items, i) == Cards(names, items, 0)
  }

  /** `draft` is the card of header `g` with the items up to `i`. */
  ghost predicate Collecting(names: Names, items: seq<ListItem>, draft: Draft, g: nat, i: nat) {
    && g < i <= |items| && IsHeader(names, items, g)
    && (forall k :: g < k < i ==> !IsHeader(names, items, k))
    && draft == OpenCard(names, items[g]).(details := SubItems(items[g].sub) + items[g + 1..i])
  }

  lemma {:induction false} NextHeaderIs(names: Names, items: seq<ListItem>, j: nat, i: nat)
    requires j <= i <= |items| && (forall k :: j <= k < i ==> !IsHeader(names, items, k))
    requires i < |items| ==> IsHeader(names, items, i)
    ensures NextHeader(names, items, j) == i
    decreases i - j
  {
    if j < i {
      NextHeaderIs(names, items, j + 1, i);
    }
  }

  lemma EmittedAtEnds(names: Names, items: seq<ListItem>, cards: seq<AnswerBlock>)
    ensures Emitted(names, items, [], 0)
    ensures Emitted(names, items, cards, |items|) ==> cards == Cards(names, items, 0)
  {
    assert cards + [] == cards;
  }

  lemma EmitCard(names: Names, items: seq<ListItem>, cards: seq<AnswerBlock>, draft: Draft, g: nat, i: nat)
    requires Emitted(names, items, cards, g) && Collecting(names, items, draft, g, i)
    requires i < |items| ==> IsHeader(names, items, i)
    ensures Emitted(names, items, cards + [Emit(draft)], i)
  {
    NextHeaderIs(names, items, g + 1, i);
    var rest := Cards(names, items, i);
    assert Cards(names, items, g) == [Emit(draft)] + rest;
    assert cards + ([Emit(draft)] + rest) == cards + [Emit(draft)] + rest;
  }

  lemma StartCard(names: Names, items: seq<ListItem>, i: nat)
    requires i < |items| && IsHeader(names, items, i)
    ensures Collecting(names, items, OpenCard(names, items[i]), i, i + 1)
  {
    assert SubItems(items[i].sub) + items[i + 1..i + 1] == SubItems(items[i].sub);
  }

  lemma AddDetail(names: Names, items: seq<ListItem>, draft: Draft, g: nat, i: nat)
    requires Collecting(names, items, draft, g, i) && i < |items| && !IsHeader(names, items, i)
    ensures Collecting(names, items, draft.(details := draft.details + [items[i]]), g, i + 1)
  {
    assert items[g + 1..i] + [items[i]] == items[g + 1..i + 1];
  }

  /** A list with bare file names: each header collects the items that follow it. There is always a card for a
      detail to go to, because the first item is a header. */
  method CollectCards(names: Names, items: seq<ListItem>) returns (cards: seq<AnswerBlock>)
    requires items != [] && IsHeader(names, items, 0)
    ensures cards == Cards(names, items, 0)
  {
    EmittedAtEnds(names, items, []);
    cards := [];
    var card: Option<Draft> := None;
    ghost var g := 0;
    for i := 0 to |items|
      invariant Emitted(names, items, cards, g)
      invariant if i == 0 then card.None? && g == 0 else card.Some? && Collecting(names, items, card.value, g, i)
    {
      var item := items[i];
      if names.headerOf(item.text) != NoFile {
        if card.Some? {
          EmitCard(names, items, cards, card.value, g, i);
          cards := cards + [Emit(card.value)];
        }
        StartCard(names, items, i);
        card, g := Some(OpenCard(names, item)), i;
      } else {
        AddDetail(names, items, card.value, g, i);
        card := Some(card.value.(details := card.value.details + [item]));
      }
    }
    EmitCard(names, items, cards, card.value, g, |items|);
    cards := cards + [Emit(card.value)];
    EmittedAtEnds(names, items, cards);
  }

  /** The blocks after a file heading, up to the next heading or file. */
  method TakeChildren(blocks: seq<AnswerBlock>, start: nat) returns (children: seq<Flat>, next: nat)
    requires start <= |blocks|
    ensures next == CardEnd(blocks, start) && children == Contents(blocks[start..next])
  {
    children, next := [], start;
    while next < |blocks| && !EndsCard(blocks[next])
      invariant start <= next <= |blocks| && CardEnd(blocks, next) == CardEnd(blocks, start)
      invariant forall k :: start <= k < next ==> !EndsCard(blocks[k])
      invariant children == Contents(blocks[start..next])
    {
      children := children + [blocks[next].content];
      next := next + 1;
    }
  }

  ghost predicate PromotedUpTo(names: Names, blocks: seq<AnswerBlock>, out: seq<AnswerBlock>, i: nat) {
    i <= |blocks| && out + Promoted(names, blocks, i) == Promoted(names, blocks, 0)
  }

  lemma PushStep(names: Names, blocks: seq<AnswerBlock>, out: seq<AnswerBlock>, i: nat, e: nat,
                 result: seq<AnswerBlock>)
    requires PromotedUpTo(names, blocks, out, i) && IsStep(names, blocks, i, e, result)
    ensures PromotedUpTo(names, blocks, out + result, e)
  {
    var rest := Promoted(names, blocks, e);
    assert out + (result + rest) == out + result + rest;
  }

  /** promoteFileCards. */
  method PromoteFileCards(names: Names, blocks: seq<AnswerBlock>) returns (out: seq<AnswerBlock>)
    ensures out == Promoted(names, blocks, 0)
  {
    out := [];
    var index := 0;
    while index < |blocks|
      invariant PromotedUpTo(names, blocks, out, index)
    {
      var block := blocks[index];
      var next, result := index + 1, [block];
      if IsFileHeading(names, block) {
        var children;
        children, next := TakeChildren(blocks, index + 1);
        result := [File(Whole([block.content.block.line]), children)];
      } else if IsFileList(names, block) {
        if AllSummaries(names, block.content.block.items) {
          result := RowCards(names, block.content.block.items);
        } else {
          result := CollectCards(names, block.content.block.items);
        }
      }
      PushStep(names, blocks, out, index, next, result);
      out := out + result;
      index := next;
    }
    assert out + [] == out;
  }
}

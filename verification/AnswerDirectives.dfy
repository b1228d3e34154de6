/** Directives and whole chat answers (frontend/app/answer-blocks.ts, directiveBlock and parseAnswerBlocks). */
module AnswerDirectives {
  import opened Common
  import opened AnswerMarkdown
  import opened AnswerBlocks

  datatype Kind = FileKind | HighlightKind | StepsKind

  /** The first word of a directive: one that names a kind, or any other. */
  datatype Name = Known(kind: Kind) | Unknown(word: Line)

  /** One line of an answer: a directive's opening, with its first word and the text after it; a closing ":::"; or any
      other line, which may be a section title. */
  datatype SourceLine =
    | Opening(name: Name, argument: Option<Line>)
    | Closing
    | Ordinary(line: Line, section: bool)

  /** The stretches of an answer that are parsed on their own. */
  datatype Section = Prose(lines: seq<Line>) | Directive(name: Name, argument: Option<Line>, body: seq<Line>)

  predicate InBody(line: SourceLine) {
    line.Ordinary? && !line.section
  }

  /** A directive ends at its ":::", at the next directive, at a section title, or with the answer. */
  function BodyEnd(source: seq<SourceLine>, i: nat): (e: nat)
    requires i <= |source|
    ensures i <= e <= |source| && (forall k :: i <= k < e ==> InBody(source[k]))
    ensures e < |source| ==> !InBody(source[e])
    decreases |source| - i
  {
    if i < |source| && InBody(source[i]) then BodyEnd(source, i + 1) else i
  }

  function Body(lines: seq<SourceLine>): (body: seq<Line>)
    requires forall k :: 0 <= k < |lines| ==> lines[k].Ordinary?
    ensures |body| == |lines| && forall k :: 0 <= k < |lines| ==> body[k] == lines[k].line
  {
    seq(|lines|, k requires 0 <= k < |lines| => lines[k].line)
  }

  function FlushPlain(plain: seq<Line>): seq<Section> {
    if plain == [] then [] else [Prose(plain)]
  }

  /** The line after a directive whose body ends at `e`. */
  function AfterBody(source: seq<SourceLine>, e: nat): nat {
    if e < |source| && source[e].Closing? then e + 1 else e
  }

  function DirectiveAt(source: seq<SourceLine>, i: nat): Section
    requires i < |source| && source[i].Opening?
  {
    Directive(source[i].name, source[i].argument, Body(source[i + 1..BodyEnd(source, i + 1)]))
  }

  /** The sections of the lines from `i` on, after the lines of open prose. */
  function Sections(source: seq<SourceLine>, i: nat, plain: seq<Line>): seq<Section>
    requires i <= |source|
    decreases |source| - i
  {
    if i == |source| then FlushPlain(plain)
    else
      match source[i]
      case Ordinary(line, _) => Sections(source, i + 1, plain + [line])
      case Closing => Sections(source, i + 1, plain)
      case Opening(_, _) =>
        var e := BodyEnd(source, i + 1);
        FlushPlain(plain) + [DirectiveAt(source, i)] + Sections(source, AfterBody(source, e), [])
  }

  // ---------------------------------------------------------------- every line in one section

  function ArgumentLines(argument: Option<Line>): seq<Line> {
    if argument.Some? then [argument.value] else []
  }

  /** The first word of a directive that is text of the answer, because it names no kind. */
  function Word(name: Name): seq<Line> {
    if name.Unknown? then [name.word] else []
  }

  /** The text of an answer, line by line, without the names of known directives and without ends. */
  function SourceText(source: seq<SourceLine>): seq<Line> {
    if source == [] then []
    else
      (match source[0]
       case Opening(name, argument) => Word(name) + ArgumentLines(argument)
       case Closing => []
       case Ordinary(line, _) => [line])
      + SourceText(source[1..])
  }

  function SectionLines(section: Section): seq<Line> {
    match section
    case Prose(lines) => lines
    case Directive(name, argument, body) => Word(name) + ArgumentLines(argument) + body
  }

  function SectionsText(sections: seq<Section>): seq<Line> {
    if sections == [] then [] else SectionLines(sections[0]) + SectionsText(sections[1..])
  }

  lemma Chain<T>(all: seq<T>, first: seq<T>, rest: seq<T>, body: seq<T>, after: seq<T>)
    requires all == first + rest && rest == body + after
    ensures all == first + body + after
  {}

  lemma {:induction false} SectionsTextAppend(a: seq<Section>, b: seq<Section>)
    ensures SectionsText(a + b) == SectionsText(a) + SectionsText(b)
    decreases |a|
  {
    if a == [] {
      assert a + b == b;
    } else {
      assert (a + b)[1..] == a[1..] + b;
      SectionsTextAppend(a[1..], b);
      Chain(SectionsText(a + b), SectionLines(a[0]), SectionsText(a[1..] + b), SectionsText(a[1..]), SectionsText(b));
    }
  }

  lemma {:induction false} BodyText(source: seq<SourceLine>, i: nat, e: nat)
    requires i <= e <= |source| && forall k :: i <= k < e ==> source[k].Ordinary?
    ensures SourceText(source[i..]) == Body(source[i..e]) + SourceText(source[e..])
    decreases e - i
  {
    if i < e {
      BodyText(source, i + 1, e);
      assert source[i..][1..] == source[i + 1..];
      assert Body(source[i..e]) == [source[i].line] + Body(source[i + 1..e]);
    } else {
      assert Body(source[i..e]) == [];
    }
  }

  lemma AfterBodyText(source: seq<SourceLine>, e: nat)
    requires e <= |source|
    ensures SourceText(source[e..]) == SourceText(source[AfterBody(source, e)..])
  {
    if AfterBody(source, e) == e + 1 {
      assert source[e..][1..] == source[e + 1..];
    }
  }

  predicate SectionsHold(source: seq<SourceLine>, i: nat, plain: seq<Line>) {
    i <= |source| && SectionsText(Sections(source, i, plain)) == plain + SourceText(source[i..])
  }

  lemma FlushText(plain: seq<Line>)
    ensures SectionsText(FlushPlain(plain)) == plain
  {
    if plain != [] {
      assert [Prose(plain)][1..] == [];
    }
  }

  lemma OpeningSource(source: seq<SourceLine>, i: nat)
    requires i < |source| && source[i].Opening?
    ensures SourceText(source[i..]) ==
            Word(source[i].name) + ArgumentLines(source[i].argument) + SourceText(source[i + 1..])
  {
    assert source[i..][1..] == source[i + 1..];
  }

  lemma BodySource(source: seq<SourceLine>, i: nat)
    requires i < |source|
    ensures var e := BodyEnd(source, i + 1);
            SourceText(source[i + 1..]) == Body(source[i + 1..e]) + SourceText(source[AfterBody(source, e)..])
  {
    BodyText(source, i + 1, BodyEnd(source, i + 1));
    AfterBodyText(source, BodyEnd(source, i + 1));
  }

  lemma DirectiveSource(source: seq<SourceLine>, i: nat)
    requires i < |source| && source[i].Opening?
    ensures SourceText(source[i..]) ==
            SectionLines(DirectiveAt(source, i)) + SourceText(source[AfterBody(source, BodyEnd(source, i + 1))..])
  {
    var e := BodyEnd(source, i + 1);
    OpeningSource(source, i);
    BodySource(source, i);
    Chain(SourceText(source[i..]), Word(source[i].name) + ArgumentLines(source[i].argument),
          SourceText(source[i + 1..]),
          Body(source[i + 1..e]), SourceText(source[AfterBody(source, e)..]));
  }

  lemma DirectiveSections(plain: seq<Line>, directive: Section, rest: seq<Section>)
    ensures SectionsText(FlushPlain(plain) + [directive] + rest) == plain + SectionLines(directive) + SectionsText(rest)
  {
    SectionsTextAppend(FlushPlain(plain) + [directive], rest);
    SectionsTextAppend(FlushPlain(plain), [directive]);
    FlushText(plain);
    assert [directive][1..] == [];
    assert SectionsText([directive]) == SectionLines(directive) + SectionsText([]);
  }

  lemma SectionsUnfold(source: seq<SourceLine>, i: nat, plain: seq<Line>)
    requires i < |source| && source[i].Opening?
    ensures Sections(source, i, plain) ==
            FlushPlain(plain) + [DirectiveAt(source, i)]
            + Sections(source, AfterBody(source, BodyEnd(source, i + 1)), [])
  {}

  lemma DirectiveText(source: seq<SourceLine>, i: nat, plain: seq<Line>)
    requires i < |source| && source[i].Opening?
    requires SectionsHold(source, AfterBody(source, BodyEnd(source, i + 1)), [])
    ensures SectionsHold(source, i, plain)
  {
    var after := AfterBody(source, BodyEnd(source, i + 1));
    var lines, rest := SectionLines(DirectiveAt(source, i)), SourceText(source[after..]);
    SectionsUnfold(source, i, plain);
    DirectiveSections(plain, DirectiveAt(source, i), Sections(source, after, []));
    assert [] + rest == rest;
    DirectiveSource(source, i);
    assert plain + lines + rest == plain + (lines + rest);
  }

  lemma {:induction false} SectionsFrom(source: seq<SourceLine>, i: nat, plain: seq<Line>)
    requires i <= |source|
    ensures SectionsHold(source, i, plain)
    decreases |source| - i
  {
    if i == |source| {
      FlushText(plain);
      assert plain + SourceText(source[i..]) == plain;
    } else {
      assert source[i..][1..] == source[i + 1..];
      match source[i]
      case Ordinary(line, _) =>
        SectionsFrom(source, i + 1, plain + [line]);
        assert plain + [line] + SourceText(source[i + 1..]) == plain + SourceText(source[i..]);
      case Closing =>
        SectionsFrom(source, i + 1, plain);
      case Opening(_, _) =>
        SectionsFrom(source, AfterBody(source, BodyEnd(source, i + 1)), []);
        DirectiveText(source, i, plain);
    }
  }

  /** Every line of an answer is in exactly one section, in order, whatever directives are left open or closed twice. */
  lemma SectionsPartition(source: seq<SourceLine>)
    ensures SectionsText(Sections(source, 0, [])) == SourceText(source)
  {
    SectionsFrom(source, 0, []);
    assert source[0..] == source && [] + SourceText(source) == SourceText(source);
  }

  // ---------------------------------------------------------------- the blocks of a section

  function Parse(lines: seq<Line>): seq<Block> {
    Blocks(Parts(lines, 0, []))
  }

  function Plains(blocks: seq<Block>): (plains: seq<AnswerBlock>)
    ensures |plains| == |blocks| && forall k :: 0 <= k < |blocks| ==> plains[k] == Other(Plain(blocks[k]))
  {
    seq(|blocks|, k requires 0 <= k < |blocks| => Other(Plain(blocks[k])))
  }

  /** The steps a block gives: a list its items, a paragraph itself, any other block none. */
  function StepsOf(block: Block): seq<ListItem> {
    match block
    case List(_, _, items) => items
    case Paragraph(lines) => [ListItem(lines, [], [])]
    case _ => []
  }

  function StepItems(children: seq<Block>): seq<ListItem> {
    if children == [] then [] else StepsOf(children[0]) + StepItems(children[1..])
  }

  /** Where the first list starts counting; 1 without a list, or if it starts at 0. */
  function StepsStart(children: seq<Block>): nat {
    if children == [] then 1
    else if children[0].List? then (if children[0].start == 0 then 1 else children[0].start)
    else StepsStart(children[1..])
  }

  function DirectiveBlock(kind: Kind, argument: Option<Line>, children: seq<Block>): seq<AnswerBlock> {
    match kind
    case FileKind =>
      if argument.Some? then
        [File(Whole([argument.value]), seq(|children|, k requires 0 <= k < |children| => Plain(children[k])))]
      else Plains(children)
    case HighlightKind => [Other(Highlight(children))]
    case StepsKind =>
      if StepItems(children) != [] then [Other(Steps(StepsStart(children), StepItems(children)))] else Plains(children)
  }

  function SectionBlocks(section: Section): seq<AnswerBlock> {
    match section
    case Prose(lines) => Plains(Parse(lines))
    case Directive(Unknown(_), argument, body) => Plains(Parse(ArgumentLines(argument) + body))
    case Directive(Known(kind), argument, body) => DirectiveBlock(kind, argument, Parse(body))
  }

  /** The text of a section: what Markdown makes of its lines; a directive's first word comes before, unless it names a
      kind, and so does a known directive's argument. */
  function SectionPieces(section: Section): seq<Text> {
    match section
    case Prose(lines) => BlocksPieces(Parse(lines))
    case Directive(Unknown(word), argument, body) =>
      TextPieces(Whole([word])) + BlocksPieces(Parse(ArgumentLines(argument) + body))
    case Directive(Known(_), argument, body) => LinesPieces(ArgumentLines(argument)) + BlocksPieces(Parse(body))
  }

  /** A directive keeps its text unless its first word names no kind, or it is a highlight or steps with an argument, or
      steps of which some have been found besides a block that is neither a list nor a paragraph. */
  predicate KeepsSection(section: Section) {
    match section
    case Prose(_) => true
    case Directive(Unknown(word), _, _) => word.hollow // never so of a word
    case Directive(Known(kind), argument, body) => KeepsDirective(kind, argument, Parse(body))
  }

  predicate KeepsDirective(kind: Kind, argument: Option<Line>, children: seq<Block>) {
    && (kind != FileKind ==> argument.None? || argument.value.hollow)
    && (kind == StepsKind && StepItems(children) != [] ==> AllSteps(children))
  }

  predicate GivesSteps(block: Block) {
    block.List? || block.Paragraph? || BlockPieces(block) == []
  }

  predicate AllSteps(children: seq<Block>) {
    forall k :: 0 <= k < |children| ==> GivesSteps(children[k])
  }

  lemma {:induction false} PlainsPieces(blocks: seq<Block>)
    ensures Pieces(Plains(blocks)) == BlocksPieces(blocks)
    decreases |blocks|
  {
    if blocks == [] {
    } else {
      PlainsPieces(blocks[1..]);
      assert Plains(blocks)[1..] == Plains(blocks[1..]);
    }
  }

  lemma {:induction false} PlainChildrenPieces(blocks: seq<Block>)
    ensures ChildrenPieces(seq(|blocks|, k requires 0 <= k < |blocks| => Plain(blocks[k]))) == BlocksPieces(blocks)
    decreases |blocks|
  {
    var children := seq(|blocks|, k requires 0 <= k < |blocks| => Plain(blocks[k]));
    if blocks == [] {
    } else {
      var rest := blocks[1..];
      PlainChildrenPieces(rest);
      assert children[1..] == seq(|rest|, k requires 0 <= k < |rest| => Plain(rest[k]));
    }
  }

  lemma StepPieces(block: Block)
    ensures Within(ItemsPieces(StepsOf(block)), BlockPieces(block), GivesSteps(block))
  {
    if block.Paragraph? {
      var item := ListItem(block.lines, [], []);
      OneItem(item);
      assert ItemPieces(item) == TextPieces(Whole(block.lines));
    }
  }

  lemma {:induction false} StepsPieces(children: seq<Block>)
    ensures Within(ItemsPieces(StepItems(children)), BlocksPieces(children), AllSteps(children))
    decreases |children|
  {
    if children == [] {
    } else {
      StepPieces(children[0]);
      StepsPieces(children[1..]);
      ItemsPiecesAppend(StepsOf(children[0]), StepItems(children[1..]));
      WithinAppend(ItemsPieces(StepsOf(children[0])), BlockPieces(children[0]), GivesSteps(children[0]),
                   ItemsPieces(StepItems(children[1..])), BlocksPieces(children[1..]), AllSteps(children[1..]));
      assert AllSteps(children) <==> GivesSteps(children[0]) && AllSteps(children[1..]) by {
        assert forall k :: 1 <= k < |children| ==> children[1..][k - 1] == children[k];
      }
    }
  }

  lemma ArgumentPieces(argument: Option<Line>)
    ensures LinesPieces(ArgumentLines(argument)) == if argument.Some? then TextPieces(Whole([argument.value])) else []
    ensures LinesPieces(ArgumentLines(argument)) == [] <==> argument.None? || argument.value.hollow
  {}

  lemma DirectiveKeeps(kind: Kind, argument: Option<Line>, children: seq<Block>)
    ensures Within(Pieces(DirectiveBlock(kind, argument, children)),
                   LinesPieces(ArgumentLines(argument)) + BlocksPieces(children),
                   KeepsDirective(kind, argument, children))
  {
    ArgumentPieces(argument);
    PlainsPieces(children);
    match kind
    case FileKind =>
      if argument.Some? {
        PlainChildrenPieces(children);
        OneBlock(DirectiveBlock(kind, argument, children)[0]);
      }
    case HighlightKind =>
      OneBlock(Other(Highlight(children)));
    case StepsKind =>
      StepsPieces(children);
      if StepItems(children) != [] {
        OneBlock(DirectiveBlock(kind, argument, children)[0]);
      }
  }

  /** The blocks of a section hold its text, in order, exactly when KeepsSection says so. */
  lemma SectionKeeps(section: Section)
    ensures Within(Pieces(SectionBlocks(section)), SectionPieces(section), KeepsSection(section))
  {
    match section
    case Prose(lines) => PlainsPieces(Parse(lines));
    case Directive(Unknown(_), argument, body) => PlainsPieces(Parse(ArgumentLines(argument) + body));
    case Directive(Known(kind), argument, body) => DirectiveKeeps(kind, argument, Parse(body));
  }

  /** For one, a highlight with text on its opening line loses that text. */
  lemma HighlightLosesItsArgument(argument: Line, body: seq<Line>)
    requires !argument.hollow
    ensures var section := Directive(Known(HighlightKind), Some(argument), body);
            Pieces(SectionBlocks(section)) != SectionPieces(section)
  {
    SectionKeeps(Directive(Known(HighlightKind), Some(argument), body));
  }

  /** And a directive of an unknown kind loses its first word: of "::: Nota final" only "final" is left. */
  lemma UnknownDirectiveLosesItsWord(word: Line, argument: Option<Line>, body: seq<Line>)
    requires !word.hollow
    ensures var section := Directive(Unknown(word), argument, body);
            && Pieces(SectionBlocks(section)) == BlocksPieces(Parse(ArgumentLines(argument) + body))
            && Pieces(SectionBlocks(section)) != SectionPieces(section)
  {
    SectionKeeps(Directive(Unknown(word), argument, body));
    PlainsPieces(Parse(ArgumentLines(argument) + body));
  }

  // ---------------------------------------------------------------- the whole answer

  function AnswerSections(sections: seq<Section>): seq<AnswerBlock> {
    if sections == [] then [] else SectionBlocks(sections[0]) + AnswerSections(sections[1..])
  }

  function AllPieces(sections: seq<Section>): seq<Text> {
    if sections == [] then [] else SectionPieces(sections[0]) + AllPieces(sections[1..])
  }

  /** The blocks of an answer, before promotion. */
  function AnswerOf(source: seq<SourceLine>): seq<AnswerBlock> {
    AnswerSections(Sections(source, 0, []))
  }

  predicate KeepsSections(sections: seq<Section>) {
    forall k :: 0 <= k < |sections| ==> KeepsSection(sections[k])
  }

  ghost predicate SectionsWithin(sections: seq<Section>) {
    Within(Pieces(AnswerSections(sections)), AllPieces(sections), KeepsSections(sections))
  }

  lemma {:induction false} SectionsKeep(sections: seq<Section>)
    ensures SectionsWithin(sections)
    decreases |sections|
  {
    if sections == [] {
    } else {
      var rest := sections[1..];
      SectionKeeps(sections[0]);
      SectionsKeep(rest);
      PiecesAppend(SectionBlocks(sections[0]), AnswerSections(rest));
      WithinAppend(Pieces(SectionBlocks(sections[0])), SectionPieces(sections[0]), KeepsSection(sections[0]),
                   Pieces(AnswerSections(rest)), AllPieces(rest), KeepsSections(rest));
      assert KeepsSections(sections) <==> KeepsSection(sections[0]) && KeepsSections(rest) by {
        assert forall k :: 1 <= k < |sections| ==> rest[k - 1] == sections[k];
      }
    }
  }

  /** The blocks of an answer hold its text, in order, if and only if no directive and no promoted list drops any. */
  lemma AnswerLosesNothing(names: Names, source: seq<SourceLine>)
    requires AreNames(names)
    ensures Pieces(Promoted(names, AnswerOf(source), 0)) == AllPieces(Sections(source, 0, [])) <==>
            KeepsSections(Sections(source, 0, [])) && KeepsBlocks(names, AnswerOf(source), 0)
  {
    SectionsKeep(Sections(source, 0, []));
    PromotionLosesNothing(names, AnswerOf(source));
  }

  // ---------------------------------------------------------------- line by line

  /** How often a line occurs in a text: once for a text it belongs to, not again for the text's second half. */
  function Occurs(pieces: seq<Text>, line: Line): nat {
    if pieces == [] then 0
    else (if pieces[0].SummaryPart? then 0 else multiset(pieces[0].lines)[line]) + Occurs(pieces[1..], line)
  }

  /** A line with text of its own: neither blank, nor an empty list item, nor a table's separator. */
  predicate HasText(line: Line) {
    !line.blank && !line.hollow && !line.separator
  }

  lemma {:induction false} OccursAppend(a: seq<Text>, b: seq<Text>, line: Line)
    ensures Occurs(a + b, line) == Occurs(a, line) + Occurs(b, line)
    decreases |a|
  {
    if a == [] {
      assert a + b == b;
    } else {
      assert (a + b)[1..] == a[1..] + b;
      OccursAppend(a[1..], b, line);
    }
  }

  lemma TextOccurs(lines: seq<Line>, line: Line)
    requires HasText(line)
    ensures Occurs(TextPieces(Whole(lines)), line) == multiset(lines)[line]
  {
    if !IsEmpty(lines) {
      var second := [SummaryPart(lines)];
      assert TextPieces(Whole(lines))[1..] == second && second[1..] == [];
      assert Occurs(second, line) == 0;
    }
  }

  predicate LinesKept(lines: seq<Line>, line: Line) {
    Occurs(LinesPieces(lines), line) == multiset(lines)[line]
  }

  predicate ParagraphsKept(paragraphs: seq<seq<Line>>, line: Line) {
    Occurs(ParagraphsPieces(paragraphs), line) == multiset(Flatten(paragraphs))[line]
  }

  predicate ItemsKept(items: seq<ListItem>, runs: seq<seq<Line>>, line: Line) {
    Occurs(ItemsPieces(items), line) == multiset(Flatten(runs))[line]
  }

  lemma {:induction false} LinesOccur(lines: seq<Line>, line: Line)
    requires HasText(line)
    ensures LinesKept(lines, line)
    decreases |lines|
  {
    if lines == [] {
    } else {
      LinesOccur(lines[1..], line);
      TextOccurs([lines[0]], line);
      OccursAppend(TextPieces(Whole([lines[0]])), LinesPieces(lines[1..]), line);
      assert lines == [lines[0]] + lines[1..];
    }
  }

  lemma {:induction false} ParagraphsOccur(paragraphs: seq<seq<Line>>, line: Line)
    requires HasText(line)
    ensures ParagraphsKept(paragraphs, line)
    decreases |paragraphs|
  {
    if paragraphs == [] {
    } else {
      ParagraphsOccur(paragraphs[1..], line);
      TextOccurs(paragraphs[0], line);
      OccursAppend(TextPieces(Whole(paragraphs[0])), ParagraphsPieces(paragraphs[1..]), line);
    }
  }

  lemma {:induction false} MarkersAndOthersCount(lines: seq<Line>)
    ensures multiset(lines) == multiset(Markers(lines)) + multiset(Others(lines))
    decreases |lines|
  {
    if lines == [] {
    } else {
      MarkersAndOthersCount(lines[1..]);
      assert lines == [lines[0]] + lines[1..];
    }
  }

  lemma TakesCount(item: ListItem, run: seq<Line>)
    requires Takes(item, run)
    ensures multiset(item.text) + multiset(item.sub) + multiset(Flatten(item.paragraphs)) == multiset(run)
  {
    MarkersAndOthersCount(run[1..]);
    assert run == [run[0]] + run[1..] && item.text == [item.text[0]] + item.text[1..];
    assert multiset(Others(run[1..])) == multiset(item.text[1..]) + multiset(Flatten(item.paragraphs));
  }

  lemma ItemOccurs(item: ListItem, run: seq<Line>, line: Line)
    requires HasText(line) && Takes(item, run)
    ensures Occurs(ItemPieces(item), line) == multiset(run)[line]
  {
    var text, sub, paragraphs := TextPieces(Whole(item.text)), LinesPieces(item.sub), ParagraphsPieces(item.paragraphs);
    OccursAppend(text + sub, paragraphs, line);
    OccursAppend(text, sub, line);
    TextOccurs(item.text, line);
    LinesOccur(item.sub, line);
    ParagraphsOccur(item.paragraphs, line);
    TakesCount(item, run);
  }

  lemma {:induction false} ItemsOccur(items: seq<ListItem>, runs: seq<seq<Line>>, line: Line)
    requires HasText(line) && TakeRuns(items, runs)
    ensures ItemsKept(items, runs, line)
    decreases |items|
  {
    if items == [] {
    } else {
      ItemOccurs(items[0], runs[0], line);
      ItemsOccur(items[1..], runs[1..], line);
      OccursAppend(ItemPieces(items[0]), ItemsPieces(items[1..]), line);
    }
  }

  lemma {:induction false} TextsCount(lines: seq<Line>, line: Line)
    requires !line.blank
    ensures multiset(Texts(lines))[line] == multiset(lines)[line]
    decreases |lines|
  {
    if lines == [] {
    } else {
      TextsCount(lines[1..], line);
      assert lines == [lines[0]] + lines[1..];
    }
  }

  lemma TableOccurs(header: Line, separator: Line, rows: seq<Line>, line: Line)
    requires HasText(line) && separator.separator
    ensures Occurs(LinesPieces([header] + rows), line) == multiset([header, separator] + rows)[line]
  {
    LinesOccur([header] + rows, line);
    assert [header, separator] + rows == [header] + ([separator] + rows);
  }

  lemma BlockOccurs(part: Part, line: Line)
    requires HasText(line) && Faithful(part) && part.block.Some?
    ensures Occurs(BlockPieces(part.block.value), line) == multiset(part.source)[line]
  {
    match part.block.value
    case Heading(_, heading) => TextOccurs([heading], line);
    case Paragraph(lines) => TextOccurs(lines, line);
    case Fields(entries) => LinesOccur(entries, line);
    case Table(header, rows) =>
      var separator: Line :| separator.separator && part.source == [header, separator] + rows;
      TableOccurs(header, separator, rows, line);
    case List(_, _, items) =>
      var runs :| TakeRuns(items, runs) && Flatten(runs) == Texts(part.source);
      ItemsOccur(items, runs, line);
      TextsCount(part.source, line);
  }

  lemma {:induction false} PartsOccur(parts: seq<Part>, line: Line)
    requires HasText(line) && forall part :: part in parts ==> Faithful(part)
    ensures Occurs(BlocksPieces(Blocks(parts)), line) == multiset(Sources(parts))[line]
    decreases |parts|
  {
    if parts == [] {
    } else {
      var part, rest := parts[0], Blocks(parts[1..]);
      PartsOccur(parts[1..], line);
      if part.block.Some? {
        BlockOccurs(part, line);
        assert ([part.block.value] + rest)[1..] == rest;
        OccursAppend(BlockPieces(part.block.value), BlocksPieces(rest), line);
      } else {
        assert Faithful(part);
        assert part.source == [part.source[0]] && [] + rest == rest;
      }
    }
  }

  /** Parsing Markdown keeps every line with text, as often as it occurs. */
  lemma ParseKeepsLine(lines: seq<Line>, line: Line)
    requires AreLines(lines) && HasText(line)
    ensures Occurs(BlocksPieces(Parse(lines)), line) == multiset(lines)[line]
  {
    ParseIsPartition(lines);
    PartsOccur(Parts(lines, 0, []), line);
  }

  lemma LinesFrom(first: seq<Line>, rest: seq<Line>)
    requires AreLines(first + rest)
    ensures AreLines(first) && AreLines(rest)
  {
    forall k | 0 <= k < |first| ensures IsLine(first[k]) {
      assert (first + rest)[k] == first[k];
    }
    forall k | 0 <= k < |rest| ensures IsLine(rest[k]) {
      assert (first + rest)[|first| + k] == rest[k];
    }
  }

  lemma SectionOccurs(section: Section, line: Line)
    requires AreLines(SectionLines(section)) && HasText(line)
    ensures Occurs(SectionPieces(section), line) == multiset(SectionLines(section))[line]
  {
    match section
    case Prose(lines) => ParseKeepsLine(lines, line);
    case Directive(Unknown(word), argument, body) =>
      assert SectionLines(section) == [word] + (ArgumentLines(argument) + body);
      LinesFrom([word], ArgumentLines(argument) + body);
      ParseKeepsLine(ArgumentLines(argument) + body, line);
      TextOccurs([word], line);
      OccursAppend(TextPieces(Whole([word])), BlocksPieces(Parse(ArgumentLines(argument) + body)), line);
    case Directive(Known(_), argument, body) =>
      var first := ArgumentLines(argument);
      assert SectionLines(section) == first + body;
      LinesFrom(first, body);
      ParseKeepsLine(body, line);
      LinesOccur(first, line);
      OccursAppend(LinesPieces(first), BlocksPieces(Parse(body)), line);
  }

  lemma {:induction false} SectionsOccur(sections: seq<Section>, line: Line)
    requires AreLines(SectionsText(sections)) && HasText(line)
    ensures Occurs(AllPieces(sections), line) == multiset(SectionsText(sections))[line]
    decreases |sections|
  {
    if sections == [] {
    } else {
      var first, rest := SectionLines(sections[0]), SectionsText(sections[1..]);
      assert SectionsText(sections) == first + rest;
      LinesFrom(first, rest);
      SectionOccurs(sections[0], line);
      SectionsOccur(sections[1..], line);
      OccursAppend(SectionPieces(sections[0]), AllPieces(sections[1..]), line);
    }
  }

  /** From the answer's lines to its cards: when no directive and no promoted list drops text, every line with text
      is in the blocks exactly as often as in the answer. */
  lemma AnswerKeepsEveryLine(names: Names, source: seq<SourceLine>, line: Line)
    requires AreNames(names) && AreLines(SourceText(source)) && HasText(line)
    requires KeepsSections(Sections(source, 0, [])) && KeepsBlocks(names, AnswerOf(source), 0)
    ensures Occurs(Pieces(Promoted(names, AnswerOf(source), 0)), line) == multiset(SourceText(source))[line]
  {
    AnswerLosesNothing(names, source);
    SectionsPartition(source);
    SectionsOccur(Sections(source, 0, []), line);
  }

  // ---------------------------------------------------------------- the loop

  ghost predicate BlocksUpTo(source: seq<SourceLine>, blocks: seq<AnswerBlock>, i: nat, plain: seq<Line>) {
    i <= |source| && blocks + AnswerSections(Sections(source, i, plain)) == AnswerOf(source)
  }

  lemma {:induction false} AnswerSectionsAppend(a: seq<Section>, b: seq<Section>)
    ensures AnswerSections(a + b) == AnswerSections(a) + AnswerSections(b)
    decreases |a|
  {
    if a == [] {
      assert a + b == b;
    } else {
      assert (a + b)[1..] == a[1..] + b;
      AnswerSectionsAppend(a[1..], b);
      Chain(AnswerSections(a + b), SectionBlocks(a[0]), AnswerSections(a[1..] + b), AnswerSections(a[1..]),
            AnswerSections(b));
    }
  }

  lemma OneSection(section: Section)
    ensures AnswerSections([section]) == SectionBlocks(section)
  {
    assert [section][1..] == [];
    assert SectionBlocks(section) + [] == SectionBlocks(section);
  }

  function FlushedPlain(blocks: seq<AnswerBlock>, plain: seq<Line>): seq<AnswerBlock> {
    if plain == [] then blocks else blocks + Plains(Parse(plain))
  }

  lemma FlushSections(blocks: seq<AnswerBlock>, plain: seq<Line>)
    ensures blocks + AnswerSections(FlushPlain(plain)) == FlushedPlain(blocks, plain)
  {
    if plain != [] {
      OneSection(Prose(plain));
    } else {
      assert blocks + [] == blocks;
    }
  }

  lemma PushDirective(source: seq<SourceLine>, blocks: seq<AnswerBlock>, i: nat, plain: seq<Line>)
    requires i < |source| && source[i].Opening? && BlocksUpTo(source, blocks, i, plain)
    ensures BlocksUpTo(source, FlushedPlain(blocks, plain) + SectionBlocks(DirectiveAt(source, i)),
                       AfterBody(source, BodyEnd(source, i + 1)), [])
  {
    var directive, rest := DirectiveAt(source, i), Sections(source, AfterBody(source, BodyEnd(source, i + 1)), []);
    SectionsUnfold(source, i, plain);
    AnswerSectionsAppend(FlushPlain(plain) + [directive], rest);
    AnswerSectionsAppend(FlushPlain(plain), [directive]);
    OneSection(directive);
    FlushSections(blocks, plain);
    Associate(blocks, AnswerSections(FlushPlain(plain)), SectionBlocks(directive), AnswerSections(rest));
  }

  method ReadBody(source: seq<SourceLine>, start: nat) returns (body: seq<Line>, next: nat)
    requires start <= |source|
    ensures next == BodyEnd(source, start) && body == Body(source[start..next])
  {
    body, next := [], start;
    while next < |source| && InBody(source[next])
      invariant start <= next <= |source| && BodyEnd(source, next) == BodyEnd(source, start)
      invariant forall k :: start <= k < next ==> InBody(source[k])
      invariant body == Body(source[start..next])
    {
      body := body + [source[next].line];
      next := next + 1;
    }
  }

  method ParseLines(lines: seq<Line>) returns (plains: seq<AnswerBlock>)
    ensures plains == Plains(Parse(lines))
  {
    var blocks := ParseMarkdown(lines);
    plains := Plains(blocks);
  }

  /** The directive that opens at line `i`, and the line after it. */
  method ReadDirective(source: seq<SourceLine>, i: nat) returns (blocks: seq<AnswerBlock>, next: nat)
    requires i < |source| && source[i].Opening?
    ensures blocks == SectionBlocks(DirectiveAt(source, i)) && next == AfterBody(source, BodyEnd(source, i + 1))
  {
    var name, argument := source[i].name, source[i].argument;
    var body;
    body, next := ReadBody(source, i + 1);
    if next < |source| && source[next].Closing? {
      next := next + 1;
    }
    if name.Unknown? {
      blocks := ParseLines(ArgumentLines(argument) + body);
    } else {
      var children := ParseMarkdown(body);
      blocks := DirectiveBlock(name.kind, argument, children);
    }
  }

  lemma NothingRead(source: seq<SourceLine>)
    ensures BlocksUpTo(source, [], 0, [])
  {
    assert [] + AnswerOf(source) == AnswerOf(source);
  }

  lemma SkipLine(source: seq<SourceLine>, blocks: seq<AnswerBlock>, i: nat, plain: seq<Line>)
    requires i < |source| && BlocksUpTo(source, blocks, i, plain) && !source[i].Opening?
    ensures BlocksUpTo(source, blocks, i + 1, if source[i].Ordinary? then plain + [source[i].line] else plain)
  {}

  lemma AllRead(source: seq<SourceLine>, blocks: seq<AnswerBlock>, plain: seq<Line>)
    requires BlocksUpTo(source, blocks, |source|, plain)
    ensures FlushedPlain(blocks, plain) == AnswerOf(source)
  {
    FlushSections(blocks, plain);
  }

  /** flushPlain(). */
  method PushProse(blocks: seq<AnswerBlock>, plain: seq<Line>) returns (out: seq<AnswerBlock>)
    ensures out == FlushedPlain(blocks, plain)
  {
    out := blocks;
    if plain != [] {
      var parsed := ParseLines(plain);
      out := out + parsed;
    }
  }

  /** parseAnswerBlocks. */
  method ParseAnswerBlocks(names: Names, source: seq<SourceLine>) returns (out: seq<AnswerBlock>)
    ensures out == Promoted(names, AnswerOf(source), 0)
  {
    var blocks: seq<AnswerBlock>, plain: seq<Line> := [], [];
    var i := 0;
    NothingRead(source);
    while i < |source|
      invariant BlocksUpTo(source, blocks, i, plain)
    {
      if source[i].Ordinary? {
        SkipLine(source, blocks, i, plain);
        plain := plain + [source[i].line];
        i := i + 1;
      } else if source[i].Closing? {
        SkipLine(source, blocks, i, plain);
        i := i + 1;
      } else {
        PushDirective(source, blocks, i, plain);
        blocks := PushProse(blocks, plain);
        var parsed, next := ReadDirective(source, i);
        blocks, plain, i := blocks + parsed, [], next;
      }
    }
    AllRead(source, blocks, plain);
    blocks := PushProse(blocks, plain);
    out := PromoteFileCards(names, blocks);
  }
}

/** The Markdown subset of chat answers (frontend/app/answer-blocks.ts, parseMarkdown).

    A line carries what the patterns of the parser say about it; how its text is trimmed and split is not
    modelled, so a block holds the lines its texts come from. `Parts` is the parse as an ordered partition
    of the lines, and the index-driven loops are proved to compute its blocks.
  */
module AnswerMarkdown {
  import opened Common

  /** One line, as the patterns of the parser see it. */
  datatype Line = Line(
    text: string,
    blank: bool,
    indent: nat,          // leading white space
    heading: Option<nat>, // level of a "#" heading
    pipe: bool,           // contains "|"
    separator: bool,      // a table separator
    field: bool,          // "**Label:** value"
    marker: bool,         // starts with a list marker
    digit: bool,          // starts with a digit
    number: nat,          // that number
    hollow: bool,         // nothing after the marker
    title: bool           // a bold line on its own
  )

  /** What the patterns have in common: a blank line matches none of them. */
  predicate IsLine(line: Line) {
    line.blank ==> line.heading.None? && !line.pipe && !line.separator && !line.field && !line.marker && !line.title
  }

  predicate AreLines(lines: seq<Line>) {
    forall i :: 0 <= i < |lines| ==> IsLine(lines[i])
  }

  /** The lines of an item's text, of its sub-items, and of its further paragraphs. */
  datatype ListItem = ListItem(text: seq<Line>, sub: seq<Line>, paragraphs: seq<seq<Line>>)

  datatype Block =
    | Heading(level: nat, line: Line)
    | Paragraph(lines: seq<Line>)
    | List(ordered: bool, start: nat, items: seq<ListItem>)
    | Fields(entries: seq<Line>)
    | Table(header: Line, rows: seq<Line>)

  /** A block, or none for a blank line, with the lines it was made from. */
  datatype Part = Part(block: Option<Block>, source: seq<Line>)

  // ---------------------------------------------------------------- runs of lines

  predicate IsRow(line: Line) {
    line.pipe && !line.blank
  }

  function RowsEnd(lines: seq<Line>, i: nat): (e: nat)
    requires i <= |lines|
    ensures i <= e <= |lines| && forall k :: i <= k < e ==> IsRow(lines[k])
    ensures e < |lines| ==> !IsRow(lines[e])
    decreases |lines| - i
  {
    if i < |lines| && IsRow(lines[i]) then RowsEnd(lines, i + 1) else i
  }

  function FieldsEnd(lines: seq<Line>, i: nat): (e: nat)
    requires i <= |lines|
    ensures i <= e <= |lines| && forall k :: i <= k < e ==> lines[k].field
    ensures e < |lines| ==> !lines[e].field
    decreases |lines| - i
  {
    if i < |lines| && lines[i].field then FieldsEnd(lines, i + 1) else i
  }

  function NextText(lines: seq<Line>, i: nat): (e: nat)
    requires i <= |lines|
    ensures i <= e <= |lines| && forall k :: i <= k < e ==> lines[k].blank
    ensures e < |lines| ==> !lines[e].blank
    decreases |lines| - i
  {
    if i < |lines| && lines[i].blank then NextText(lines, i + 1) else i
  }

  // ---------------------------------------------------------------- lists

  /** A marker line that ends the list: outdented, or of the other kind at the list's own level. */
  predicate EndsList(line: Line, base: nat, ordered: bool) {
    line.indent < base || (line.indent == base && line.digit != ordered)
  }

  /** Whether a list goes on, after blank lines, with the given line. */
  predicate Continues(line: Line, base: nat, ordered: bool) {
    if line.marker then line.indent >= base && (line.indent > base || line.digit == ordered)
    else line.indent > base
  }

  function Last<T>(s: seq<T>): T
    requires s != []
  {
    s[|s| - 1]
  }

  function WithLast<T>(s: seq<T>, x: T): seq<T>
    requires s != []
  {
    s[|s| - 1 := x]
  }

  function AddMarker(items: seq<ListItem>, line: Line, base: nat): seq<ListItem> {
    if line.indent > base && items != [] then WithLast(items, Last(items).(sub := Last(items).sub + [line]))
    else items + [ListItem([line], [], [])]
  }

  function AddContinuation(items: seq<ListItem>, line: Line, newParagraph: bool): seq<ListItem>
    requires items != []
  {
    var item := Last(items);
    WithLast(items,
             if newParagraph then item.(paragraphs := item.paragraphs + [[line]])
             else if item.paragraphs != [] then
               item.(paragraphs := WithLast(item.paragraphs, Last(item.paragraphs) + [line]))
             else item.(text := item.text + [line]))
  }

  /** Where the scan of a list stands: its items, the next line, and whether blank lines came before it. */
  datatype Scan = Scan(items: seq<ListItem>, next: nat, newParagraph: bool)

  /** What the list does with its next line or lines; None if it ends before them. */
  function ListStep(lines: seq<Line>, s: Scan, base: nat, ordered: bool): (r: Option<Scan>)
    requires s.next < |lines|
    ensures r.Some? ==> s.next < r.value.next <= |lines|
  {
    var line := lines[s.next];
    if line.marker then
      if EndsList(line, base, ordered) then None else Some(Scan(AddMarker(s.items, line, base), s.next + 1, false))
    else if line.blank then
      var next := NextText(lines, s.next + 1);
      if next < |lines| && Continues(lines[next], base, ordered) then Some(Scan(s.items, next, true)) else None
    else if s.items != [] && line.indent > base then
      Some(Scan(AddContinuation(s.items, line, s.newParagraph), s.next + 1, false))
    else None
  }

  function ScanList(lines: seq<Line>, s: Scan, base: nat, ordered: bool): (r: Scan)
    requires s.next <= |lines|
    ensures s.next <= r.next <= |lines|
    decreases |lines| - s.next
  {
    if s.next == |lines| || ListStep(lines, s, base, ordered).None? then s
    else ScanList(lines, ListStep(lines, s, base, ordered).value, base, ordered)
  }

  /** The lines that are not blank. */
  function Texts(lines: seq<Line>): seq<Line> {
    if lines == [] then [] else (if lines[0].blank then [] else [lines[0]]) + Texts(lines[1..])
  }

  lemma {:induction false} TextsAppend(a: seq<Line>, b: seq<Line>)
    ensures Texts(a + b) == Texts(a) + Texts(b)
    decreases |a|
  {
    if a == [] {
      assert a + b == b;
    } else {
      assert (a + b)[1..] == a[1..] + b;
      TextsAppend(a[1..], b);
    }
  }

  lemma {:induction false} NoTexts(lines: seq<Line>)
    requires forall i :: 0 <= i < |lines| ==> lines[i].blank
    ensures Texts(lines) == []
    decreases |lines|
  {
    if lines == [] {
    } else {
      NoTexts(lines[1..]);
    }
  }

  lemma {:induction false} AllTexts(lines: seq<Line>)
    requires forall i :: 0 <= i < |lines| ==> !lines[i].blank
    ensures Texts(lines) == lines
    decreases |lines|
  {
    if lines == [] {
    } else {
      AllTexts(lines[1..]);
    }
  }

  function Markers(lines: seq<Line>): seq<Line> {
    if lines == [] then [] else (if lines[0].marker then [lines[0]] else []) + Markers(lines[1..])
  }

  function Others(lines: seq<Line>): seq<Line> {
    if lines == [] then [] else (if lines[0].marker then [] else [lines[0]]) + Others(lines[1..])
  }

  /** An item is made of a run of lines: the first starts its text, the markers among the others are its sub-items, and
      the rest, in order, is the rest of its text and then its paragraphs. */
  predicate Takes(item: ListItem, run: seq<Line>) {
    && run != [] && item.text != [] && item.text[0] == run[0]
    && item.sub == Markers(run[1..]) && item.text[1..] + Flatten(item.paragraphs) == Others(run[1..])
  }

  /** The items are made of these runs, one after the other. */
  predicate TakeRuns(items: seq<ListItem>, runs: seq<seq<Line>>) {
    |items| == |runs| && forall k :: 0 <= k < |items| ==> Takes(items[k], runs[k])
  }

  lemma {:induction false} MarkersAndOthersOfLonger(lines: seq<Line>, line: Line)
    ensures Markers(lines + [line]) == Markers(lines) + if line.marker then [line] else []
    ensures Others(lines + [line]) == Others(lines) + if line.marker then [] else [line]
    decreases |lines|
  {
    if lines == [] {
      assert [line][1..] == [];
    } else {
      assert (lines + [line])[1..] == lines[1..] + [line];
      MarkersAndOthersOfLonger(lines[1..], line);
    }
  }

  lemma TakesOneMore(item: ListItem, run: seq<Line>, line: Line)
    requires Takes(item, run)
    ensures line.marker ==> Takes(item.(sub := item.sub + [line]), run + [line])
    ensures !line.marker ==> Takes(item.(paragraphs := item.paragraphs + [[line]]), run + [line])
    ensures !line.marker && item.paragraphs == [] ==> Takes(item.(text := item.text + [line]), run + [line])
    ensures !line.marker && item.paragraphs != [] ==>
              Takes(item.(paragraphs := WithLast(item.paragraphs, Last(item.paragraphs) + [line])), run + [line])
  {
    assert (run + [line])[1..] == run[1..] + [line];
    MarkersAndOthersOfLonger(run[1..], line);
    FlattenAppend(item.paragraphs, [[line]]);
    FlattenOne([line]);
    if item.paragraphs == [] {
      assert (item.text + [line])[1..] + [] == item.text[1..] + [] + [line];
    } else {
      FlattenLast(item.paragraphs, line);
    }
  }

  lemma {:induction false} FlattenLast(parts: seq<seq<Line>>, line: Line)
    requires parts != []
    ensures Flatten(WithLast(parts, Last(parts) + [line])) == Flatten(parts) + [line]
    decreases |parts|
  {
    var parts' := WithLast(parts, Last(parts) + [line]);
    if |parts| == 1 {
      assert parts'[1..] == [] && parts[1..] == [];
    } else {
      assert parts'[1..] == WithLast(parts[1..], Last(parts[1..]) + [line]);
      FlattenLast(parts[1..], line);
    }
  }

  /** The runs, with a line at the end: of the last run, or of a new one. */
  function WithLine(runs: seq<seq<Line>>, line: Line, opens: bool): seq<seq<Line>>
    requires opens || runs != []
  {
    if opens then runs + [[line]] else WithLast(runs, Last(runs) + [line])
  }

  lemma WithLineAdds(runs: seq<seq<Line>>, line: Line, opens: bool)
    requires opens || runs != []
    ensures Flatten(WithLine(runs, line, opens)) == Flatten(runs) + [line]
  {
    if opens {
      FlattenAppend(runs, [[line]]);
      FlattenOne([line]);
    } else {
      FlattenLast(runs, line);
    }
  }

  lemma MarkerTakes(items: seq<ListItem>, runs: seq<seq<Line>>, line: Line, base: nat)
    requires TakeRuns(items, runs) && line.marker
    ensures TakeRuns(AddMarker(items, line, base), WithLine(runs, line, !(line.indent > base && items != [])))
  {
    if line.indent > base && items != [] {
      TakesOneMore(Last(items), Last(runs), line);
    } else {
      assert [line][1..] == [] && Takes(ListItem([line], [], []), [line]);
    }
  }

  lemma ContinuationTakes(items: seq<ListItem>, runs: seq<seq<Line>>, line: Line, newParagraph: bool)
    requires TakeRuns(items, runs) && items != [] && !line.marker
    ensures TakeRuns(AddContinuation(items, line, newParagraph), WithLine(runs, line, false))
  {
    TakesOneMore(Last(items), Last(runs), line);
  }

  /** From `s` to `r` the items take the lines that are not blank, in order. */
  ghost predicate TakesTexts(lines: seq<Line>, s: Scan, runs: seq<seq<Line>>, r: Scan, runs': seq<seq<Line>>) {
    && s.next <= r.next <= |lines| && TakeRuns(r.items, runs')
    && Flatten(runs') == Flatten(runs) + Texts(lines[s.next..r.next])
  }

  lemma StepTakesTexts(lines: seq<Line>, s: Scan, base: nat, ordered: bool, runs: seq<seq<Line>>)
    returns (runs': seq<seq<Line>>)
    requires AreLines(lines) && s.next < |lines| && ListStep(lines, s, base, ordered).Some? && TakeRuns(s.items, runs)
    ensures TakesTexts(lines, s, runs, ListStep(lines, s, base, ordered).value, runs')
  {
    var line, r := lines[s.next], ListStep(lines, s, base, ordered).value;
    var taken := lines[s.next..r.next];
    if line.blank {
      NoTexts(taken);
      runs' := runs;
    } else {
      var opens := line.marker && !(line.indent > base && s.items != []);
      assert taken == [line];
      AllTexts(taken);
      runs' := WithLine(runs, line, opens);
      WithLineAdds(runs, line, opens);
      if line.marker {
        MarkerTakes(s.items, runs, line, base);
      } else {
        ContinuationTakes(s.items, runs, line, s.newParagraph);
      }
    }
  }

  lemma TakesTextsChain(lines: seq<Line>, s: Scan, runs: seq<seq<Line>>, s1: Scan, runs1: seq<seq<Line>>,
                        r: Scan, runs': seq<seq<Line>>)
    requires TakesTexts(lines, s, runs, s1, runs1) && TakesTexts(lines, s1, runs1, r, runs')
    ensures TakesTexts(lines, s, runs, r, runs')
  {
    assert lines[s.next..r.next] == lines[s.next..s1.next] + lines[s1.next..r.next];
    TextsAppend(lines[s.next..s1.next], lines[s1.next..r.next]);
  }

  /** The lines of a list that are not blank form consecutive runs, in order, and each item is made of its run. */
  lemma {:induction false} ListTakesTexts(lines: seq<Line>, s: Scan, base: nat, ordered: bool, runs: seq<seq<Line>>)
    returns (runs': seq<seq<Line>>)
    requires AreLines(lines) && s.next <= |lines| && TakeRuns(s.items, runs)
    ensures TakesTexts(lines, s, runs, ScanList(lines, s, base, ordered), runs')
    decreases |lines| - s.next
  {
    if s.next == |lines| || ListStep(lines, s, base, ordered).None? {
      runs' := runs;
      assert lines[s.next..s.next] == [];
    } else {
      var s1, runs1 := ListStep(lines, s, base, ordered).value, [];
      runs1 := StepTakesTexts(lines, s, base, ordered, runs);
      runs' := ListTakesTexts(lines, s1, base, ordered, runs1);
      TakesTextsChain(lines, s, runs, s1, runs1, ScanList(lines, s1, base, ordered), runs');
    }
  }

  /** A marker line of the list's own level and kind. */
  predicate IsTopMarker(line: Line, base: nat, ordered: bool) {
    line.marker && line.indent == base && line.digit == ordered
  }

  /** An item starts with a marker line of the list's own level and kind; its sub-items are marker lines further
      in, and everything else in it is text further in. */
  predicate IsItem(item: ListItem, base: nat, ordered: bool) {
    && item.text != [] && IsTopMarker(item.text[0], base, ordered)
    && (forall k :: 1 <= k < |item.text| ==> IsContinuation(item.text[k], base))
    && (forall k :: 0 <= k < |item.sub| ==> item.sub[k].marker && item.sub[k].indent > base)
    && (forall p :: 0 <= p < |item.paragraphs| ==> IsItemParagraph(item.paragraphs[p], base))
  }

  predicate IsContinuation(line: Line, base: nat) {
    !line.marker && !line.blank && line.indent > base
  }

  predicate IsItemParagraph(paragraph: seq<Line>, base: nat) {
    paragraph != [] && forall k :: 0 <= k < |paragraph| ==> IsContinuation(paragraph[k], base)
  }

  predicate AreItems(items: seq<ListItem>, base: nat, ordered: bool) {
    forall k :: 0 <= k < |items| ==> IsItem(items[k], base, ordered)
  }

  lemma StepKeepsItems(lines: seq<Line>, s: Scan, base: nat, ordered: bool)
    requires s.next < |lines| && ListStep(lines, s, base, ordered).Some? && AreItems(s.items, base, ordered)
    requires s.items == [] ==> IsTopMarker(lines[s.next], base, ordered)
    ensures var r := ListStep(lines, s, base, ordered).value; r.items != [] && AreItems(r.items, base, ordered)
  {}

  lemma {:induction false} ListHasItems(lines: seq<Line>, s: Scan, base: nat, ordered: bool)
    requires s.next <= |lines| && AreItems(s.items, base, ordered)
    requires s.items == [] ==> s.next < |lines| && IsTopMarker(lines[s.next], base, ordered)
    ensures var r := ScanList(lines, s, base, ordered); r.items != [] && AreItems(r.items, base, ordered)
    decreases |lines| - s.next
  {
    if s.next < |lines| && ListStep(lines, s, base, ordered).Some? {
      StepKeepsItems(lines, s, base, ordered);
      ListHasItems(lines, ListStep(lines, s, base, ordered).value, base, ordered);
    }
  }

  // ---------------------------------------------------------------- the partition into blocks

  function ListAt(lines: seq<Line>, i: nat): Scan
    requires i < |lines|
  {
    ScanList(lines, Scan([], i, false), lines[i].indent, lines[i].digit)
  }

  /** The block that starts at line `i`, and the line after it; None if the line belongs to a paragraph. */
  function BlockAt(lines: seq<Line>, i: nat): Option<(Block, nat)>
    requires i < |lines|
  {
    var line := lines[i];
    if line.heading.Some? then Some((Heading(line.heading.value, line), i + 1))
    else if line.pipe && i + 1 < |lines| && lines[i + 1].separator then
      Some((Table(line, lines[i + 2..RowsEnd(lines, i + 2)]), RowsEnd(lines, i + 2)))
    else if line.field then Some((Fields(lines[i..FieldsEnd(lines, i)]), FieldsEnd(lines, i)))
    else if line.marker then
      Some((List(line.digit, if line.digit then line.number else 1, ListAt(lines, i).items), ListAt(lines, i).next))
    else if line.title then Some((Heading(3, line), i + 1))
    else None
  }

  lemma BlockTakesLines(lines: seq<Line>, i: nat)
    requires i < |lines| && BlockAt(lines, i).Some?
    ensures i < BlockAt(lines, i).value.1 <= |lines|
  {
    if lines[i].marker {
      assert ListStep(lines, Scan([], i, false), lines[i].indent, lines[i].digit).Some?;
    }
  }

  function Flush(paragraph: seq<Line>): seq<Part> {
    if paragraph == [] then [] else [Part(Some(Paragraph(paragraph)), paragraph)]
  }

  /** The parts of the lines from `i` on, after the lines of an open paragraph. */
  function Parts(lines: seq<Line>, i: nat, paragraph: seq<Line>): seq<Part>
    requires i <= |lines|
    decreases |lines| - i
  {
    if i == |lines| then Flush(paragraph)
    else if lines[i].blank then Flush(paragraph) + [Part(None, [lines[i]])] + Parts(lines, i + 1, [])
    else if BlockAt(lines, i).None? then Parts(lines, i + 1, paragraph + [lines[i]])
    else
      BlockTakesLines(lines, i);
      var (block, end) := BlockAt(lines, i).value;
      Flush(paragraph) + [Part(Some(block), lines[i..end])] + Parts(lines, end, [])
  }

  function Sources(parts: seq<Part>): seq<Line> {
    if parts == [] then [] else parts[0].source + Sources(parts[1..])
  }

  function Blocks(parts: seq<Part>): seq<Block> {
    if parts == [] then []
    else (if parts[0].block.Some? then [parts[0].block.value] else []) + Blocks(parts[1..])
  }

  lemma {:induction false} SourcesAppend(a: seq<Part>, b: seq<Part>)
    ensures Sources(a + b) == Sources(a) + Sources(b)
    decreases |a|
  {
    if a == [] {
      assert a + b == b;
    } else {
      assert (a + b)[1..] == a[1..] + b;
      SourcesAppend(a[1..], b);
      assert a[0].source + (Sources(a[1..]) + Sources(b)) == Sources(a) + Sources(b);
    }
  }

  lemma {:induction false} BlocksAppend(a: seq<Part>, b: seq<Part>)
    ensures Blocks(a + b) == Blocks(a) + Blocks(b)
    decreases |a|
  {
    if a == [] {
      assert a + b == b;
    } else {
      assert (a + b)[1..] == a[1..] + b;
      BlocksAppend(a[1..], b);
      var first := if a[0].block.Some? then [a[0].block.value] else [];
      assert first + (Blocks(a[1..]) + Blocks(b)) == first + Blocks(a[1..]) + Blocks(b);
    }
  }

  /** The block of a part holds the lines of the part, in order: all of them in a heading, a paragraph or a list of
      fields, all but the separator in a table; in a list those that are not blank, each item made of its run of
      them. */
  ghost predicate Faithful(part: Part) {
    match part.block
    case None => |part.source| == 1 && part.source[0].blank
    case Some(Heading(_, line)) => part.source == [line]
    case Some(Paragraph(lines)) => part.source == lines && lines != []
    case Some(Fields(entries)) =>
      part.source == entries && entries != [] && forall k :: 0 <= k < |entries| ==> entries[k].field
    case Some(Table(header, rows)) =>
      exists separator: Line :: separator.separator && part.source == [header, separator] + rows
    case Some(List(ordered, _, items)) =>
      && items != [] && (exists runs :: TakeRuns(items, runs) && Flatten(runs) == Texts(part.source))
      && exists base: nat :: AreItems(items, base, ordered)
  }

  lemma OnePart(part: Part)
    ensures Sources([part]) == part.source
    ensures Blocks([part]) == if part.block.Some? then [part.block.value] else []
  {
    assert Sources([part]) == part.source + Sources([]) && Blocks([part][1..]) == [];
  }

  lemma FlushSource(paragraph: seq<Line>)
    ensures Sources(Flush(paragraph)) == paragraph
  {
    if paragraph != [] {
      OnePart(Part(Some(Paragraph(paragraph)), paragraph));
    }
  }

  predicate PartitionsFrom(lines: seq<Line>, i: nat, paragraph: seq<Line>)
    requires i <= |lines|
  {
    Sources(Parts(lines, i, paragraph)) == paragraph + lines[i..]
  }

  lemma SourcesOfThree(paragraph: seq<Line>, part: Part, rest: seq<Part>, lines: seq<Line>, i: nat, end: nat)
    requires i <= end <= |lines| && part.source == lines[i..end] && Sources(rest) == lines[end..]
    ensures Sources(Flush(paragraph) + [part] + rest) == paragraph + lines[i..]
  {
    FlushSource(paragraph);
    SourcesAppend(Flush(paragraph) + [part], rest);
    SourcesAppend(Flush(paragraph), [part]);
    OnePart(part);
    assert lines[i..] == lines[i..end] + lines[end..];
  }

  /** The parts are consecutive, in order, and leave no line out. */
  lemma {:induction false} PartsPartition(lines: seq<Line>, i: nat, paragraph: seq<Line>)
    requires i <= |lines|
    ensures PartitionsFrom(lines, i, paragraph)
    decreases |lines| - i
  {
    if i == |lines| {
      FlushSource(paragraph);
      assert paragraph + lines[i..] == paragraph;
    } else if lines[i].blank {
      PartsPartition(lines, i + 1, []);
      assert [] + lines[i + 1..] == lines[i + 1..];
      SourcesOfThree(paragraph, Part(None, [lines[i]]), Parts(lines, i + 1, []), lines, i, i + 1);
    } else if BlockAt(lines, i).None? {
      PartsPartition(lines, i + 1, paragraph + [lines[i]]);
      assert paragraph + [lines[i]] + lines[i + 1..] == paragraph + lines[i..];
    } else {
      BlockTakesLines(lines, i);
      var (block, end) := BlockAt(lines, i).value;
      PartsPartition(lines, end, []);
      assert [] + lines[end..] == lines[end..];
      SourcesOfThree(paragraph, Part(Some(block), lines[i..end]), Parts(lines, end, []), lines, i, end);
    }
  }

  lemma BlockIsFaithful(lines: seq<Line>, i: nat)
    requires AreLines(lines) && i < |lines| && !lines[i].blank && BlockAt(lines, i).Some?
    ensures i < BlockAt(lines, i).value.1 <= |lines|
    ensures Faithful(Part(Some(BlockAt(lines, i).value.0), lines[i..BlockAt(lines, i).value.1]))
  {
    BlockTakesLines(lines, i);
    var line := lines[i];
    var (block, end) := BlockAt(lines, i).value;
    match block
    case Table(header, rows) =>
      assert lines[i..end] == [header, lines[i + 1]] + rows;
    case List(_, _, _) =>
      var start := Scan([], i, false);
      var runs := ListTakesTexts(lines, start, line.indent, line.digit, []);
      assert TakeRuns(ListAt(lines, i).items, runs) && Flatten(runs) == Texts(lines[i..end]);
      ListHasItems(lines, start, line.indent, line.digit);
      assert AreItems(ListAt(lines, i).items, line.indent, line.digit);
    case _ =>
  }

  /** Every part's block is made of the part's lines. */
  lemma {:induction false} PartsAreFaithful(lines: seq<Line>, i: nat, paragraph: seq<Line>)
    requires AreLines(lines) && i <= |lines|
    ensures forall part :: part in Parts(lines, i, paragraph) ==> Faithful(part)
    decreases |lines| - i
  {
    if i < |lines| {
      if lines[i].blank {
        PartsAreFaithful(lines, i + 1, []);
      } else if BlockAt(lines, i).None? {
        PartsAreFaithful(lines, i + 1, paragraph + [lines[i]]);
      } else {
        BlockIsFaithful(lines, i);
        PartsAreFaithful(lines, BlockAt(lines, i).value.1, []);
      }
    }
  }

  /** The parse partitions the lines into consecutive parts in order; each block holds the lines of its part that
      are not blank, except a table's separator, and parts without a block are single blank lines. */
  lemma ParseIsPartition(lines: seq<Line>)
    requires AreLines(lines)
    ensures Sources(Parts(lines, 0, [])) == lines
    ensures forall part :: part in Parts(lines, 0, []) ==> Faithful(part)
  {
    PartsPartition(lines, 0, []);
    assert [] + lines[0..] == lines;
    PartsAreFaithful(lines, 0, []);
  }

  // ---------------------------------------------------------------- the loops

  /** The blocks of the lines from `i` on, after those already pushed. */
  ghost predicate Pending(lines: seq<Line>, blocks: seq<Block>, i: nat, paragraph: seq<Line>) {
    i <= |lines| && blocks + Blocks(Parts(lines, i, paragraph)) == Blocks(Parts(lines, 0, []))
  }

  lemma BlocksOfThree(paragraph: seq<Line>, part: Part, rest: seq<Part>)
    ensures Blocks(Flush(paragraph) + [part] + rest) ==
            Blocks(Flush(paragraph)) + (if part.block.Some? then [part.block.value] else []) + Blocks(rest)
  {
    BlocksAppend(Flush(paragraph) + [part], rest);
    BlocksAppend(Flush(paragraph), [part]);
    OnePart(part);
  }

  lemma Associate<T>(a: seq<T>, b: seq<T>, c: seq<T>, d: seq<T>)
    ensures a + (b + c + d) == a + b + c + d
  {}

  lemma PushBlock(lines: seq<Line>, blocks: seq<Block>, i: nat, paragraph: seq<Line>, part: Part, end: nat)
    requires Pending(lines, blocks, i, paragraph) && end <= |lines|
    requires Parts(lines, i, paragraph) == Flush(paragraph) + [part] + Parts(lines, end, [])
    ensures Pending(lines, Flushed(blocks, paragraph) + (if part.block.Some? then [part.block.value] else []), end, [])
  {
    var rest := Parts(lines, end, []);
    BlocksOfThree(paragraph, part, rest);
    FlushBlocks(blocks, paragraph);
    Associate(blocks, Blocks(Flush(paragraph)), if part.block.Some? then [part.block.value] else [], Blocks(rest));
  }

  /** flush(): an open paragraph is pushed. */
  function Flushed(blocks: seq<Block>, paragraph: seq<Line>): seq<Block> {
    if paragraph == [] then blocks else blocks + [Paragraph(paragraph)]
  }

  lemma FlushBlocks(blocks: seq<Block>, paragraph: seq<Line>)
    ensures blocks + Blocks(Flush(paragraph)) == Flushed(blocks, paragraph)
  {
    if paragraph != [] {
      OnePart(Part(Some(Paragraph(paragraph)), paragraph));
    } else {
      assert blocks + [] == blocks;
    }
  }

  method ReadRows(lines: seq<Line>, start: nat) returns (rows: seq<Line>, i: nat)
    requires start <= |lines|
    ensures i == RowsEnd(lines, start) && rows == lines[start..i]
  {
    rows, i := [], start;
    while i < |lines| && lines[i].pipe && !lines[i].blank
      invariant start <= i <= |lines| && RowsEnd(lines, i) == RowsEnd(lines, start) && rows == lines[start..i]
    {
      rows := rows + [lines[i]];
      i := i + 1;
    }
  }

  method ReadFields(lines: seq<Line>, start: nat) returns (entries: seq<Line>, i: nat)
    requires start <= |lines|
    ensures i == FieldsEnd(lines, start) && entries == lines[start..i]
  {
    entries, i := [], start;
    while i < |lines| && lines[i].field
      invariant start <= i <= |lines| && FieldsEnd(lines, i) == FieldsEnd(lines, start) && entries == lines[start..i]
    {
      entries := entries + [lines[i]];
      i := i + 1;
    }
  }

  /** The lookahead over blank lines: where the list goes on, if it does. */
  method LookAhead(lines: seq<Line>, i: nat, baseIndent: nat, ordered: bool) returns (next: nat, continues: bool)
    requires i < |lines|
    ensures next == NextText(lines, i + 1)
    ensures continues == (next < |lines| && Continues(lines[next], baseIndent, ordered))
  {
    next := i + 1;
    while next < |lines| && lines[next].blank
      invariant i + 1 <= next <= |lines| && NextText(lines, next) == NextText(lines, i + 1)
    {
      next := next + 1;
    }
    continues := next < |lines| && Continues(lines[next], baseIndent, ordered);
  }

  /** The scan from `s` ends in `r`. */
  predicate LeadsTo(lines: seq<Line>, s: Scan, base: nat, ordered: bool, r: Scan) {
    s.next <= |lines| && ScanList(lines, s, base, ordered) == r
  }

  lemma ListGoesOn(lines: seq<Line>, s: Scan, base: nat, ordered: bool, r: Scan)
    requires LeadsTo(lines, s, base, ordered, r) && s.next < |lines|
    ensures var step := ListStep(lines, s, base, ordered);
            if step.None? then r == s else LeadsTo(lines, step.value, base, ordered, r)
  {}

  method ReadList(lines: seq<Line>, start: nat) returns (items: seq<ListItem>, i: nat)
    requires start < |lines| && lines[start].marker
    ensures items == ListAt(lines, start).items && i == ListAt(lines, start).next
  {
    var ordered, baseIndent := lines[start].digit, lines[start].indent;
    var newParagraph := false;
    items, i := [], start;
    ghost var result := ListAt(lines, start);
    while i < |lines|
      invariant start <= i <= |lines|
      invariant LeadsTo(lines, Scan(items, i, newParagraph), baseIndent, ordered, result)
    {
      ListGoesOn(lines, Scan(items, i, newParagraph), baseIndent, ordered, result);
      var current := lines[i];
      if current.marker {
        if EndsList(current, baseIndent, ordered) {
          return;
        }
        items := AddMarker(items, current, baseIndent);
        newParagraph := false;
        i := i + 1;
        continue;
      }
      if current.blank {
        var next, continues := LookAhead(lines, i, baseIndent, ordered);
        if !continues {
          return;
        }
        i := next;
        newParagraph := true;
        continue;
      }
      if items == [] || current.indent <= baseIndent {
        return;
      }
      items := AddContinuation(items, current, newParagraph);
      newParagraph := false;
      i := i + 1;
    }
  }

  /** parseMarkdown. The index always ends one line before the next, as the original's `i--` leaves it. */
  method ParseMarkdown(lines: seq<Line>) returns (blocks: seq<Block>)
    ensures blocks == Blocks(Parts(lines, 0, []))
  {
    blocks := [];
    var paragraph: seq<Line> := [];
    var i := 0;
    while i < |lines|
      invariant Pending(lines, blocks, i, paragraph)
      decreases |lines| - i
    {
      var line := lines[i];
      if line.blank {
        PushBlock(lines, blocks, i, paragraph, Part(None, [line]), i + 1);
        blocks, paragraph := Flushed(blocks, paragraph), [];
        assert blocks + [] == blocks;
        i := i + 1;
        continue;
      }
      ghost var start := i;
      if BlockAt(lines, i).Some? {
        BlockTakesLines(lines, i);
        PushBlock(lines, blocks, i, paragraph,
                  Part(Some(BlockAt(lines, i).value.0), lines[i..BlockAt(lines, i).value.1]),
                  BlockAt(lines, i).value.1);
      }
      if line.heading.Some? {
        blocks, paragraph := Flushed(blocks, paragraph) + [Heading(line.heading.value, line)], [];
      } else if line.pipe && i + 1 < |lines| && lines[i + 1].separator {
        var rows, end := ReadRows(lines, i + 2);
        i := end - 1;
        blocks, paragraph := Flushed(blocks, paragraph) + [Table(line, rows)], [];
      } else if line.field {
        var entries, end := ReadFields(lines, i);
        i := end - 1;
        blocks, paragraph := Flushed(blocks, paragraph) + [Fields(entries)], [];
      } else if line.marker {
        var number := if line.digit then line.number else 1;
        var items, end := ReadList(lines, i);
        i := end - 1;
        blocks, paragraph := Flushed(blocks, paragraph) + [List(line.digit, number, items)], [];
      } else if line.title {
        blocks, paragraph := Flushed(blocks, paragraph) + [Heading(3, line)], [];
      } else {
        paragraph := paragraph + [line];
      }
      i := i + 1;
    }
    FlushBlocks(blocks, paragraph);
    blocks := Flushed(blocks, paragraph);
  }
}

/** Finding a cited excerpt in the text spans of a PDF page, and grouping chunks by page
    (frontend/app/file-viewer-logic.ts).

    Letter case is folded character by character by `fold`, which keeps blanks and nothing else blank.
  */
module PassageLocator {
  import opened Common

  // ---------------------------------------------------------------- white space

  /** Replaces every run of white space by one blank. */
  function Collapse(s: string): string {
    if s == [] then []
    else if !IsSpace(s[0]) then [s[0]] + Collapse(s[1..])
    else if |s| > 1 && IsSpace(s[1]) then Collapse(s[1..])
    else " " + Collapse(s[1..])
  }

  function Squash(s: string): string {
    Trim(Collapse(s))
  }

  /** Both texts, with a blank between them when neither is empty. */
  function Glue(a: string, b: string): string {
    if a == [] || b == [] then a + b else a + " " + b
  }

  /** The text of the page: its squashed spans, glued. */
  function Joined(pieces: seq<string>): string {
    if pieces == [] then [] else Glue(Joined(pieces[..|pieces| - 1]), pieces[|pieces| - 1])
  }

  function Squashed(spans: seq<string>): seq<string> {
    seq(|spans|, k requires 0 <= k < |spans| => Squash(spans[k]))
  }

  /** The span texts as they are, each after a blank. */
  function Raw(spans: seq<string>): string {
    if spans == [] then [] else Raw(spans[..|spans| - 1]) + (" " + spans[|spans| - 1])
  }

  // The words of a text give white space normalisation a meaning of its own.

  function FirstWordEnd(s: string): (k: nat)
    ensures k <= |s| && (s != [] && !IsSpace(s[0]) ==> k > 0)
  {
    if s == [] || IsSpace(s[0]) then 0 else 1 + FirstWordEnd(s[1..])
  }

  /** The words of `s`, joined by single blanks. */
  function Normal(s: string): string
    decreases |s|
  {
    if s == [] then []
    else if IsSpace(s[0]) then Normal(s[1..])
    else
      var k := FirstWordEnd(s);
      Glue(s[..k], Normal(s[k..]))
  }

  lemma {:induction false} CollapseWord(s: string)
    ensures Collapse(s) == s[..FirstWordEnd(s)] + Collapse(s[FirstWordEnd(s)..])
    decreases |s|
  {
    if s != [] && !IsSpace(s[0]) {
      CollapseWord(s[1..]);
      var k := FirstWordEnd(s);
      assert s[..k] == [s[0]] + s[1..][..k - 1] && s[k..] == s[1..][k - 1..];
    } else {
      assert s[..0] + Collapse(s[0..]) == Collapse(s);
    }
  }

  lemma {:induction false} BlanksFirst(s: string)
    requires s != [] && IsSpace(s[0])
    ensures Collapse(s) == " " + Collapse(TrimStart(s)) && Normal(s) == Normal(TrimStart(s))
    ensures |TrimStart(s)| < |s|
    decreases |s|
  {
    if |s| > 1 && IsSpace(s[1]) {
      BlanksFirst(s[1..]);
    } else {
      assert TrimStart(s[1..]) == s[1..];
    }
  }

  lemma {:induction false} WordEnd(s: string)
    ensures forall i :: 0 <= i < FirstWordEnd(s) ==> !IsSpace(s[i])
    ensures FirstWordEnd(s) < |s| ==> IsSpace(s[FirstWordEnd(s)])
    decreases |s|
  {
    if s != [] && !IsSpace(s[0]) {
      WordEnd(s[1..]);
    }
  }

  lemma {:induction false} TrimEndAppend(a: string, b: string)
    requires TrimEnd(b) != []
    ensures TrimEnd(a + b) == a + TrimEnd(b)
    decreases |b|
  {
    if IsSpace(b[|b| - 1]) {
      assert (a + b)[..|a + b| - 1] == a + b[..|b| - 1];
      TrimEndAppend(a, b[..|b| - 1]);
    }
  }

  lemma TrimWord(word: string)
    requires word != [] && !IsSpace(word[|word| - 1])
    ensures TrimEnd(word) == word && TrimEnd(word + " ") == word
  {
    assert (word + " ")[..|word|] == word;
  }

  lemma NormalOfWord(s: string)
    requires s != [] && !IsSpace(s[0])
    ensures var k := FirstWordEnd(s);
            0 < k <= |s| && !IsSpace(s[k - 1]) && Normal(s) == Glue(s[..k], Normal(s[k..])) != []
            && (k < |s| ==> IsSpace(s[k]))
  {
    WordEnd(s);
  }

  lemma WordBeforeTail(word: string, tail: string)
    requires TrimEnd(tail) != [] && word != []
    ensures TrimEnd(word + (" " + tail)) == Glue(word, TrimEnd(tail))
  {
    TrimEndAppend(word + " ", tail);
    assert word + (" " + tail) == word + " " + tail;
  }

  lemma {:induction false} WordsAreNormal(s: string)
    requires s != [] && !IsSpace(s[0])
    ensures TrimEnd(Collapse(s)) == Normal(s)
    decreases |s|
  {
    var k := FirstWordEnd(s);
    CollapseWord(s);
    NormalOfWord(s);
    TrimWord(s[..k]);
    assert s[..k] + [] == s[..k];
    if k < |s| {
      var tail := TrimStart(s[k..]);
      BlanksFirst(s[k..]);
      TrimStartMeaning(s[k..]);
      if tail != [] {
        WordsAreNormal(tail);
        NormalOfWord(tail);
        WordBeforeTail(s[..k], Collapse(tail));
      } else {
        assert " " + Collapse(tail) == " ";
      }
    }
  }

  /** Squashing keeps the words, with single blanks between them. */
  lemma SquashIsNormal(s: string)
    ensures Squash(s) == Normal(s)
  {
    if s != [] {
      TrimStartMeaning(s);
      var tail := TrimStart(s);
      if IsSpace(s[0]) {
        BlanksFirst(s);
        assert (" " + Collapse(tail))[1..] == Collapse(tail);
      }
      if tail != [] {
        assert TrimStart(Collapse(tail)) == Collapse(tail) by {
          assert Collapse(tail)[0] == tail[0];
        }
        WordsAreNormal(tail);
      }
    }
  }

  lemma {:induction false} WordOfLonger(a: string, b: string)
    requires b == [] || IsSpace(b[0])
    ensures FirstWordEnd(a + b) == FirstWordEnd(a)
    decreases |a|
  {
    if a == [] {
      assert a + b == b;
    } else if !IsSpace(a[0]) {
      assert (a + b)[1..] == a[1..] + b;
      WordOfLonger(a[1..], b);
    }
  }

  lemma GlueAssociates(a: string, b: string, c: string)
    ensures Glue(Glue(a, b), c) == Glue(a, Glue(b, c))
  {
    if a != [] && b != [] && c != [] {
      assert a + " " + b + " " + c == a + " " + (b + " " + c);
    } else if a == [] {
      assert a + b == b && a + Glue(b, c) == Glue(b, c);
    } else if b == [] {
      assert a + b == a && b + c == c;
    } else {
      assert Glue(a, b) + c == Glue(a, b) && b + c == b;
    }
  }

  /** Texts set apart by white space are normalised one by one. */
  lemma {:induction false} NormalOfLonger(a: string, b: string)
    requires b == [] || IsSpace(b[0])
    ensures Normal(a + b) == Glue(Normal(a), Normal(b))
    decreases |a|
  {
    if a == [] {
      assert a + b == b && Normal(a) + Normal(b) == Normal(b);
    } else if IsSpace(a[0]) {
      assert (a + b)[1..] == a[1..] + b;
      NormalOfLonger(a[1..], b);
    } else {
      var k := FirstWordEnd(a);
      WordOfLonger(a, b);
      assert (a + b)[..k] == a[..k] && (a + b)[k..] == a[k..] + b;
      NormalOfLonger(a[k..], b);
      GlueAssociates(a[..k], Normal(a[k..]), Normal(b));
    }
  }

  /** The text that the offset index describes is the white-space-normalised text of the page. */
  lemma {:induction false} JoinedIsNormalised(spans: seq<string>)
    ensures Joined(Squashed(spans)) == Squash(Raw(spans))
    decreases |spans|
  {
    SquashIsNormal(Raw(spans));
    if spans != [] {
      var front, last := spans[..|spans| - 1], spans[|spans| - 1];
      JoinedIsNormalised(front);
      assert Squashed(spans)[..|spans| - 1] == Squashed(front);
      SquashIsNormal(Raw(front));
      SquashIsNormal(last);
      NormalOfLonger(Raw(front), " " + last);
      assert (" " + last)[1..] == last;
    }
  }

  // ---------------------------------------------------------------- searching

  /** The excerpt without a closing ellipsis. */
  function WithoutEllipsis(s: string): string {
    if s != [] && s[|s| - 1] == '\U{2026}' then s[..|s| - 1] else s
  }

  predicate OccursAt(text: string, needle: string, fold: char -> char, at: nat) {
    at + |needle| <= |text| && forall i :: 0 <= i < |needle| ==> fold(text[at + i]) == fold(needle[i])
  }

  predicate Occurs(text: string, needle: string, fold: char -> char) {
    exists at :: 0 <= at <= |text| && OccursAt(text, needle, fold, at)
  }

  /** indexOf over folded text. */
  function IndexOf(text: string, needle: string, fold: char -> char, p: nat): (at: Option<nat>)
    requires p <= |text|
    ensures at.Some? ==> p <= at.value <= |text| && OccursAt(text, needle, fold, at.value)
    ensures forall k :: p <= k <= |text| && OccursAt(text, needle, fold, k) ==> at.Some? && at.value <= k
    decreases |text| - p
  {
    if OccursAt(text, needle, fold, p) then Some(p)
    else if p == |text| then None
    else IndexOf(text, needle, fold, p + 1)
  }

  const SHORTEST := 8

  function Needle(excerpt: string): string {
    Trim(WithoutEllipsis(excerpt))
  }

  function SplitAt(text: string, needle: string, fold: char -> char): Option<(string, string, string)> {
    if |needle| < SHORTEST then None
    else
      match IndexOf(text, needle, fold, 0)
      case None => None
      case Some(at) => Some((text[..at], text[at..at + |needle|], text[at + |needle|..]))
  }

  /** The passage before, at and after the first occurrence of the excerpt; None for a short or absent one. */
  function SplitHighlight(text: string, excerpt: string, fold: char -> char): Option<(string, string, string)> {
    SplitAt(text, Needle(excerpt), fold)
  }

  predicate Findable(text: string, needle: string, fold: char -> char) {
    |needle| >= SHORTEST && Occurs(text, needle, fold)
  }

  /** The three parts make the text again, around the first occurrence. */
  ghost predicate SplitsAtFirst(text: string, needle: string, fold: char -> char, parts: (string, string, string)) {
    && parts.0 + parts.1 + parts.2 == text && |parts.1| == |needle|
    && OccursAt(text, needle, fold, |parts.0|)
    && forall k :: 0 <= k < |parts.0| ==> !OccursAt(text, needle, fold, k)
  }

  lemma SplitAtMeaning(text: string, needle: string, fold: char -> char)
    ensures SplitAt(text, needle, fold).Some? <==> Findable(text, needle, fold)
    ensures SplitAt(text, needle, fold).Some? ==> SplitsAtFirst(text, needle, fold, SplitAt(text, needle, fold).value)
  {
    if |needle| >= SHORTEST {
      var found := IndexOf(text, needle, fold, 0);
      if found.Some? {
        var at := found.value;
        assert text == text[..at] + text[at..at + |needle|] + text[at + |needle|..];
      }
    }
  }

  lemma SplitMeaning(text: string, excerpt: string, fold: char -> char)
    ensures SplitHighlight(text, excerpt, fold).Some? <==> Findable(text, Needle(excerpt), fold)
    ensures SplitHighlight(text, excerpt, fold).Some? ==>
              SplitsAtFirst(text, Needle(excerpt), fold, SplitHighlight(text, excerpt, fold).value)
  {
    SplitAtMeaning(text, Needle(excerpt), fold);
  }

  function Slice(s: string, n: nat): string {
    if n <= |s| then s[..n] else s
  }

  /** The excerpt and its openings, in the order they are tried. */
  function Needles(excerpt: string): seq<string> {
    var wanted := Squash(WithoutEllipsis(excerpt));
    [wanted, Slice(wanted, 80), Slice(wanted, 40), Slice(wanted, 24)]
  }

  // ---------------------------------------------------------------- the offset index

  /** Where piece `k` starts in the text of the page. */
  function Start(pieces: seq<string>, k: nat): nat
    requires k < |pieces|
  {
    var before := Joined(pieces[..k]);
    |before| + if before != [] && pieces[k] != [] then 1 else 0
  }

  /** The offset index of a page. */
  ghost predicate IsIndex(starts: seq<nat>, pieces: seq<string>) {
    |starts| == |pieces| && forall k :: 0 <= k < |pieces| ==> starts[k] == Start(pieces, k)
  }

  /** Character `p` of the page belongs to piece `k`. */
  predicate Holds(starts: seq<nat>, pieces: seq<string>, k: nat, p: int) {
    k < |starts| == |pieces| && starts[k] <= p < starts[k] + |pieces[k]|
  }

  predicate Overlaps(starts: seq<nat>, pieces: seq<string>, k: nat, begin: nat, end: nat) {
    k < |starts| == |pieces| && pieces[k] != [] && starts[k] + |pieces[k]| > begin && starts[k] < end
  }

  /** Pieces with text follow each other with something in between. */
  predicate InOrder(starts: seq<nat>, pieces: seq<string>) {
    && |starts| == |pieces|
    && forall i, k :: 0 <= i < k < |pieces| && pieces[i] != [] && pieces[k] != [] ==>
      starts[i] + |pieces[i]| < starts[k]
  }

  lemma {:induction false} PieceText(pieces: seq<string>, k: nat)
    requires k < |pieces|
    ensures var s := Start(pieces, k);
            s + |pieces[k]| <= |Joined(pieces)| && (pieces[k] != [] ==> Joined(pieces)[s..s + |pieces[k]|] == pieces[k])
    decreases |pieces|
  {
    var m := |pieces| - 1;
    var front := pieces[..m];
    assert Joined(pieces) == Glue(Joined(front), pieces[m]);
    assert Joined(pieces)[..|Joined(front)|] == Joined(front);
    if k < m {
      assert front[..k] == pieces[..k];
      PieceText(front, k);
      var s := Start(pieces, k);
      assert Joined(pieces)[s..s + |pieces[k]|] == Joined(front)[s..s + |pieces[k]|];
    }
  }

  lemma IndexInOrder(starts: seq<nat>, pieces: seq<string>)
    requires IsIndex(starts, pieces)
    ensures InOrder(starts, pieces)
  {
    forall i, k | 0 <= i < k < |pieces| && pieces[i] != [] && pieces[k] != []
      ensures starts[i] + |pieces[i]| < starts[k]
    {
      assert pieces[..k][..i] == pieces[..i];
      PieceText(pieces[..k], i);
    }
  }

  /** Every character that is not a blank belongs to a piece. */
  lemma {:induction false} CharacterHasPiece(pieces: seq<string>, p: nat) returns (k: nat)
    requires p < |Joined(pieces)| && Joined(pieces)[p] != ' '
    ensures k < |pieces| && Start(pieces, k) <= p < Start(pieces, k) + |pieces[k]|
    decreases |pieces|
  {
    var m := |pieces| - 1;
    var front := pieces[..m];
    if p < |Joined(front)| {
      k := CharacterHasPiece(front, p);
      assert front[..k] == pieces[..k];
    } else {
      k := m;
    }
  }

  ghost predicate KeepsBlanks(fold: char -> char) {
    forall c :: fold(c) == ' ' <==> c == ' '
  }

  /** The range of pieces that an occurrence touches: it starts in the first, ends in the last,
      and touches every piece with text in between and no other. */
  ghost predicate Marks(starts: seq<nat>, pieces: seq<string>, from: nat, to: nat, begin: nat, end: nat) {
    && Holds(starts, pieces, from, begin) && Holds(starts, pieces, to, end - 1)
    && forall k :: 0 <= k < |pieces| && pieces[k] != [] ==>
      (Overlaps(starts, pieces, k, begin, end) <==> from <= k <= to)
  }

  lemma RangeMarks(starts: seq<nat>, pieces: seq<string>, from: nat, to: nat, begin: nat, end: nat, first: nat,
                   last: nat)
    requires InOrder(starts, pieces) && begin < end
    requires Holds(starts, pieces, first, begin) && Holds(starts, pieces, last, end - 1)
    requires from <= to && Overlaps(starts, pieces, from, begin, end) && Overlaps(starts, pieces, to, begin, end)
    requires forall k: nat :: Overlaps(starts, pieces, k, begin, end) ==> from <= k <= to
    ensures Marks(starts, pieces, from, to, begin, end)
  {
    assert Overlaps(starts, pieces, first, begin, end) && Overlaps(starts, pieces, last, begin, end);
    assert from == first && to == last;
    forall k | from <= k <= to && pieces[k] != []
      ensures Overlaps(starts, pieces, k, begin, end)
    {
      assert from < k ==> starts[from] + |pieces[from]| < starts[k];
      assert k < to ==> starts[k] + |pieces[k]| < starts[to];
    }
  }

  /** The ends of an occurrence of a trimmed text lie in pieces. */
  lemma EndsHavePieces(starts: seq<nat>, pieces: seq<string>, excerpt: string, fold: char -> char, at: nat)
    returns (first: nat, last: nat)
    requires IsIndex(starts, pieces) && KeepsBlanks(fold)
    requires Needle(excerpt) != [] && OccursAt(Joined(pieces), Needle(excerpt), fold, at)
    ensures Holds(starts, pieces, first, at) && Holds(starts, pieces, last, at + |Needle(excerpt)| - 1)
  {
    var needle := Needle(excerpt);
    var n := |needle|;
    TrimMeaning(WithoutEllipsis(excerpt));
    assert fold(Joined(pieces)[at + 0]) == fold(needle[0]);
    assert fold(Joined(pieces)[at + (n - 1)]) == fold(needle[n - 1]);
    first := CharacterHasPiece(pieces, at);
    last := CharacterHasPiece(pieces, at + n - 1);
  }

  // ---------------------------------------------------------------- the search

  /** Where a needle first occurs in the text of the page. */
  function Place(pieces: seq<string>, needle: string, fold: char -> char): Option<(nat, nat)> {
    var parts := SplitHighlight(Joined(pieces), needle, fold);
    if parts.None? then None else Some((|parts.value.0|, |parts.value.0| + |parts.value.1|))
  }

  lemma PlaceHasPieces(starts: seq<nat>, pieces: seq<string>, needle: string, fold: char -> char)
    returns (first: nat, last: nat)
    requires IsIndex(starts, pieces) && KeepsBlanks(fold) && Place(pieces, needle, fold).Some?
    ensures var (begin, end) := Place(pieces, needle, fold).value;
            begin < end && Holds(starts, pieces, first, begin) && Holds(starts, pieces, last, end - 1)
  {
    SplitMeaning(Joined(pieces), needle, fold);
    var (before, marked, after) := SplitHighlight(Joined(pieces), needle, fold).value;
    first, last := EndsHavePieces(starts, pieces, needle, fold, |before|);
  }

  /** The loop over the spans: the first and the last one that the occurrence touches. */
  method TouchedRange(starts: seq<nat>, pieces: seq<string>, begin: nat, end: nat, ghost first: nat, ghost last: nat)
    returns (from: int, to: int)
    requires InOrder(starts, pieces) && begin < end
    requires Holds(starts, pieces, first, begin) && Holds(starts, pieces, last, end - 1)
    ensures from >= 0 && to >= 0 && Marks(starts, pieces, from, to, begin, end)
  {
    from, to := -1, -1;
    for k := 0 to |pieces|
      invariant from < 0 ==> forall i :: 0 <= i < k ==> !Overlaps(starts, pieces, i, begin, end)
      invariant from >= 0 ==>
        && from <= to < k && Overlaps(starts, pieces, from, begin, end) && Overlaps(starts, pieces, to, begin, end)
        && forall i :: 0 <= i < k && Overlaps(starts, pieces, i, begin, end) ==> from <= i <= to
    {
      if pieces[k] != [] && starts[k] + |pieces[k]| > begin && starts[k] < end {
        if from < 0 {
          from := k;
        }
        to := k;
      }
    }
    assert Overlaps(starts, pieces, first, begin, end);
    RangeMarks(starts, pieces, from, to, begin, end, first, last);
  }

  /** The range marks the first place of the needle. */
  ghost predicate MarksNeedle(starts: seq<nat>, pieces: seq<string>, needle: string, fold: char -> char, from: int,
                              to: int) {
    var place := Place(pieces, needle, fold);
    0 <= from && 0 <= to && place.Some? && Marks(starts, pieces, from, to, place.value.0, place.value.1)
  }

  /** The range marks needle `i`, and no earlier one can be found. */
  ghost predicate LocatesAt(pieces: seq<string>, needles: seq<string>, fold: char -> char, from: int, to: int,
                            i: nat, starts: seq<nat>) {
    && i < |needles| && IsIndex(starts, pieces)
    && (forall k :: 0 <= k < i ==> !Findable(Joined(pieces), Needle(needles[k]), fold))
    && MarksNeedle(starts, pieces, needles[i], fold, from, to)
  }

  /** The range marks the first needle that can be found. */
  ghost predicate Locates(pieces: seq<string>, needles: seq<string>, fold: char -> char, from: int, to: int) {
    exists i, starts :: LocatesAt(pieces, needles, fold, from, to, i, starts)
  }

  /** The loop that builds the page text and its offset index. */
  method BuildIndex(spans: seq<string>) returns (starts: seq<nat>, joined: string, pieces: seq<string>)
    ensures pieces == Squashed(spans) && joined == Joined(pieces) && IsIndex(starts, pieces)
  {
    starts, pieces, joined := [], [], "";
    for k := 0 to |spans|
      invariant pieces == Squashed(spans[..k]) && joined == Joined(pieces) && IsIndex(starts, pieces)
    {
      var piece := Squash(spans[k]);
      SquashedOneMore(spans, k);
      IndexOneMore(starts, pieces, piece);
      starts := starts + [|joined| + if joined != [] && piece != [] then 1 else 0];
      joined := joined + (if joined != [] && piece != [] then " " else "") + piece;
      pieces := pieces + [piece];
    }
    assert spans[..|spans|] == spans;
  }

  lemma SquashedOneMore(spans: seq<string>, k: nat)
    requires k < |spans|
    ensures Squashed(spans[..k + 1]) == Squashed(spans[..k]) + [Squash(spans[k])]
  {}

  lemma IndexOneMore(starts: seq<nat>, pieces: seq<string>, piece: string)
    requires IsIndex(starts, pieces)
    ensures var joined := Joined(pieces);
            && IsIndex(starts + [|joined| + if joined != [] && piece != [] then 1 else 0], pieces + [piece])
            && Joined(pieces + [piece]) == joined + (if joined != [] && piece != [] then " " else "") + piece
  {
    var longer := pieces + [piece];
    assert longer[..|pieces|] == pieces;
    assert forall i :: 0 <= i < |pieces| ==> longer[..i] == pieces[..i];
  }

  /** The search of one needle; the test for a negative range never fails. */
  method Find(starts: seq<nat>, joined: string, pieces: seq<string>, needle: string, fold: char -> char)
    returns (range: Option<(int, int)>)
    requires IsIndex(starts, pieces) && joined == Joined(pieces) && KeepsBlanks(fold)
    ensures FoundBy(starts, pieces, needle, fold, range)
  {
    var parts := SplitHighlight(joined, needle, fold);
    SplitMeaning(joined, needle, fold);
    if parts == None {
      return None;
    }
    var begin := |parts.value.0|;
    var end := begin + |parts.value.1|;
    IndexInOrder(starts, pieces);
    ghost var first, last := PlaceHasPieces(starts, pieces, needle, fold);
    var from, to := TouchedRange(starts, pieces, begin, end, first, last);
    range := if from >= 0 then Some((from, to)) else None;
  }

  /** The result of searching one needle. */
  ghost predicate FoundBy(starts: seq<nat>, pieces: seq<string>, needle: string, fold: char -> char,
                          range: Option<(int, int)>) {
    && (range.Some? <==> Findable(Joined(pieces), Needle(needle), fold))
    && (range.Some? ==> MarksNeedle(starts, pieces, needle, fold, range.value.0, range.value.1))
  }

  /** None of the first `n` needles can be found. */
  predicate NoneFindable(pieces: seq<string>, needles: seq<string>, fold: char -> char, n: nat) {
    n <= |needles| && forall k :: 0 <= k < n ==> !Findable(Joined(pieces), Needle(needles[k]), fold)
  }

  lemma NextIsNotFindable(pieces: seq<string>, needles: seq<string>, fold: char -> char, n: nat)
    requires NoneFindable(pieces, needles, fold, n) && n < |needles|
    requires !Findable(Joined(pieces), Needle(needles[n]), fold)
    ensures NoneFindable(pieces, needles, fold, n + 1)
  {}

  /** The loop over the needles. */
  method FindFirst(starts: seq<nat>, joined: string, pieces: seq<string>, needles: seq<string>, fold: char -> char)
    returns (range: Option<(int, int)>)
    requires IsIndex(starts, pieces) && joined == Joined(pieces) && KeepsBlanks(fold)
    ensures range.None? <==> NoneFindable(pieces, needles, fold, |needles|)
    ensures range.Some? ==> Locates(pieces, needles, fold, range.value.0, range.value.1)
  {
    for i := 0 to |needles|
      invariant NoneFindable(pieces, needles, fold, i)
    {
      range := Find(starts, joined, pieces, needles[i], fold);
      if range != None {
        assert LocatesAt(pieces, needles, fold, range.value.0, range.value.1, i, starts);
        assert Findable(Joined(pieces), Needle(needles[i]), fold);
        return;
      }
      NextIsNotFindable(pieces, needles, fold, i);
    }
    return None;
  }

  /** Null means that none of the needles of enough length occurs on the page. */
  method LocateInSpans(spans: seq<string>, excerpt: string, fold: char -> char) returns (range: Option<(int, int)>)
    requires KeepsBlanks(fold)
    ensures range.None? <==> NoneFindable(Squashed(spans), Needles(excerpt), fold, |Needles(excerpt)|)
    ensures range.Some? ==> Locates(Squashed(spans), Needles(excerpt), fold, range.value.0, range.value.1)
  {
    var starts, joined, pieces := BuildIndex(spans);
    range := FindFirst(starts, joined, pieces, Needles(excerpt), fold);
  }
}

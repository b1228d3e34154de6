/** Markdown links and bare addresses in answer prose (frontend/app/answer-display.ts).

    A link opener is what the pattern \[([^\]]+)\]\( matches: a bracket, a label of at least one
    character other than "]", and "](". The destination ends at the parenthesis that balances it.
  */
module AnswerLinks {
  import opened Common

  // ---------------------------------------------------------------- openers and destinations

  /** The first "]" at or after `p`; |v| if there is none. */
  function NextBracket(v: string, p: nat): (k: nat)
    requires p <= |v|
    ensures p <= k <= |v| && (k < |v| ==> v[k] == ']') && forall i :: p <= i < k ==> v[i] != ']'
    decreases |v| - p
  {
    if p == |v| || v[p] == ']' then p else NextBracket(v, p + 1)
  }

  /** Where the label of a bracket at `i` ends. */
  function LabelEnd(v: string, i: nat): nat
    requires i < |v|
  {
    NextBracket(v, i + 1)
  }

  predicate OpensAt(v: string, i: nat) {
    && i < |v| && v[i] == '['
    && i + 1 < LabelEnd(v, i) && LabelEnd(v, i) + 1 < |v| && v[LabelEnd(v, i) + 1] == '('
  }

  /** Where the destination of an opener starts, and the pattern goes on looking. */
  function OpenerEnd(v: string, i: nat): nat
    requires OpensAt(v, i)
  {
    LabelEnd(v, i) + 2
  }

  /** The first opener at or after `p`; |v| if there is none. */
  function NextOpener(v: string, p: nat): (i: nat)
    requires p <= |v|
    ensures p <= i <= |v| && (i < |v| ==> OpensAt(v, i)) && forall k :: p <= k < i ==> !OpensAt(v, k)
    decreases |v| - p
  {
    if p == |v| || OpensAt(v, p) then p else NextOpener(v, p + 1)
  }

  /** The end of a destination entered with `depth` parentheses open; None if it is never closed. */
  function Close(v: string, p: nat, depth: nat): (end: Option<nat>)
    requires p <= |v|
    ensures end.Some? ==> p <= end.value <= |v| && (depth > 0 ==> p < end.value)
    decreases |v| - p
  {
    if depth == 0 then Some(p)
    else if p == |v| then None
    else Close(v, p + 1, if v[p] == '(' then depth + 1 else if v[p] == ')' then depth - 1 else depth)
  }

  function LinkEnd(v: string, i: nat): Option<nat>
    requires OpensAt(v, i)
  {
    Close(v, OpenerEnd(v, i), 1)
  }

  /** A link whose destination is closed. */
  predicate LinkAt(v: string, i: nat) {
    OpensAt(v, i) && LinkEnd(v, i).Some?
  }

  // ---------------------------------------------------------------- one pass over the openers

  /** The rest of the output, given the text already dealt with and the place from which openers are looked for. */
  function Strip(v: string, cursor: nat, scan: nat): string
    requires cursor <= |v| && scan <= |v|
    decreases |v| - scan
  {
    var i := NextOpener(v, scan);
    if i == |v| then v[cursor..]
    else
      var next := OpenerEnd(v, i);
      if i < cursor || LinkEnd(v, i).None? then Strip(v, cursor, next)
      else v[cursor..i] + v[i + 1..LabelEnd(v, i)] + Strip(v, LinkEnd(v, i).value, next)
  }

  /** The loop that looks for the parenthesis balancing the one before `start`. */
  method Balance(value: string, start: nat) returns (end: nat, depth: nat)
    requires start <= |value|
    ensures end <= |value|
    ensures Close(value, start, 1) == if depth == 0 then Some(end) else None
  {
    depth, end := 1, start;
    while end < |value| && depth > 0
      invariant start <= end <= |value|
      invariant Close(value, end, depth) == Close(value, start, 1)
    {
      if value[end] == '(' {
        depth := depth + 1;
      } else if value[end] == ')' {
        depth := depth - 1;
      }
      end := end + 1;
    }
  }

  /** `parts` and what the pass still produces make the answer. */
  predicate Pending(v: string, parts: string, cursor: nat, scan: nat)
    requires cursor <= |v| && scan <= |v|
  {
    parts + Strip(v, cursor, scan) == Strip(v, 0, 0)
  }

  lemma TakeLink(v: string, parts: string, cursor: nat, scan: nat, i: nat, end: nat)
    requires cursor <= |v| && scan <= |v| && Pending(v, parts, cursor, scan)
    requires i == NextOpener(v, scan) && cursor <= i < |v| && LinkEnd(v, i) == Some(end)
    ensures Pending(v, parts + v[cursor..i] + v[i + 1..LabelEnd(v, i)], end, OpenerEnd(v, i))
  {
    var a, b, rest := v[cursor..i], v[i + 1..LabelEnd(v, i)], Strip(v, end, OpenerEnd(v, i));
    assert Strip(v, cursor, scan) == a + b + rest;
    assert parts + (a + b + rest) == parts + a + b + rest;
  }

  method StripMarkdownLinks(value: string) returns (answer: string)
    ensures answer == Strip(value, 0, 0)
  {
    var parts: string := [];
    var cursor: nat, scan: nat := 0, 0;
    while NextOpener(value, scan) < |value|
      invariant cursor <= |value| && scan <= |value|
      invariant Pending(value, parts, cursor, scan)
      decreases |value| - scan
    {
      var index := NextOpener(value, scan);
      ghost var previous := scan;
      scan := OpenerEnd(value, index);
      if index < cursor {
        continue;
      }
      var end, depth := Balance(value, scan);
      if depth != 0 {
        continue;
      }
      TakeLink(value, parts, cursor, previous, index, end);
      parts := parts + value[cursor..index] + value[index + 1..LabelEnd(value, index)];
      cursor := end;
    }
    answer := parts + value[cursor..];
  }

  // ---------------------------------------------------------------- link by link

  /** The first closed link at or after `p`; |v| if there is none. */
  function NextLink(v: string, p: nat): (i: nat)
    requires p <= |v|
    ensures p <= i <= |v| && (i < |v| ==> LinkAt(v, i)) && forall k :: p <= k < i ==> !LinkAt(v, k)
    decreases |v| - p
  {
    if p == |v| || LinkAt(v, p) then p else NextLink(v, p + 1)
  }

  /** The leftmost closed link gives way to its label, and the text goes on after its destination. */
  function Unlinked(v: string, p: nat): string
    requires p <= |v|
    decreases |v| - p
  {
    var i := NextLink(v, p);
    if i == |v| then v[p..]
    else v[p..i] + v[i + 1..LabelEnd(v, i)] + Unlinked(v, LinkEnd(v, i).value)
  }

  // ---------------------------------------------------------------- the links that are replaced

  /** The links that the pass replaces. */
  function PassLinks(v: string, cursor: nat, scan: nat): seq<nat>
    requires cursor <= |v| && scan <= |v|
    decreases |v| - scan
  {
    var i := NextOpener(v, scan);
    if i == |v| then []
    else
      var next := OpenerEnd(v, i);
      if i < cursor || LinkEnd(v, i).None? then PassLinks(v, cursor, next)
      else [i] + PassLinks(v, LinkEnd(v, i).value, next)
  }

  /** The links replaced when every search starts after the last destination. */
  function LinksFrom(v: string, p: nat): seq<nat>
    requires p <= |v|
    decreases |v| - p
  {
    var i := NextLink(v, p);
    if i == |v| then [] else [i] + LinksFrom(v, LinkEnd(v, i).value)
  }

  /** The text from `p` on with the given links replaced by their labels. */
  function Replaced(v: string, p: nat, links: seq<nat>): string
    requires p <= |v|
    decreases |links|
  {
    if links == [] || links[0] < p || !LinkAt(v, links[0]) then v[p..]
    else v[p..links[0]] + v[links[0] + 1..LabelEnd(v, links[0])] + Replaced(v, LinkEnd(v, links[0]).value, links[1..])
  }

  lemma StripSplices(v: string, cursor: nat, scan: nat)
    requires cursor <= |v| && scan <= |v| && cursor <= NextOpener(v, scan) < |v|
             && LinkEnd(v, NextOpener(v, scan)).Some?
    ensures var i := NextOpener(v, scan);
            Strip(v, cursor, scan) ==
            v[cursor..i] + v[i + 1..LabelEnd(v, i)] + Strip(v, LinkEnd(v, i).value, OpenerEnd(v, i))
  {}

  lemma PassStops(v: string, cursor: nat, scan: nat)
    requires cursor <= |v| && scan <= |v| && cursor <= NextOpener(v, scan) < |v|
             && LinkEnd(v, NextOpener(v, scan)).Some?
    ensures var i := NextOpener(v, scan);
            PassLinks(v, cursor, scan) == [i] + PassLinks(v, LinkEnd(v, i).value, OpenerEnd(v, i))
  {}

  predicate PassIs(v: string, cursor: nat, scan: nat)
    requires cursor <= |v| && scan <= |v|
  {
    Strip(v, cursor, scan) == Replaced(v, cursor, PassLinks(v, cursor, scan))
  }

  lemma ReplacedFirst(v: string, p: nat, i: nat, links: seq<nat>)
    requires p <= i && LinkAt(v, i)
    ensures Replaced(v, p, [i] + links) ==
            v[p..i] + v[i + 1..LabelEnd(v, i)] + Replaced(v, LinkEnd(v, i).value, links)
  {
    assert ([i] + links)[1..] == links;
  }

  /** The pass replaces exactly the links it stops at. */
  lemma {:induction false} PassReplaces(v: string, cursor: nat, scan: nat)
    requires cursor <= |v| && scan <= |v|
    ensures PassIs(v, cursor, scan)
    decreases |v| - scan
  {
    var i := NextOpener(v, scan);
    if i < |v| {
      var next := OpenerEnd(v, i);
      if i < cursor || LinkEnd(v, i).None? {
        PassReplaces(v, cursor, next);
      } else {
        PassReplaces(v, LinkEnd(v, i).value, next);
        StripSplices(v, cursor, scan);
        PassStops(v, cursor, scan);
        ReplacedFirst(v, cursor, i, PassLinks(v, LinkEnd(v, i).value, next));
      }
    }
  }

  lemma {:induction false} RestartReplaces(v: string, p: nat)
    requires p <= |v|
    ensures Unlinked(v, p) == Replaced(v, p, LinksFrom(v, p))
    decreases |v| - p
  {
    var i := NextLink(v, p);
    if i < |v| {
      RestartReplaces(v, LinkEnd(v, i).value);
      assert LinksFrom(v, p)[1..] == LinksFrom(v, LinkEnd(v, i).value);
    }
  }

  /** An opener inside the destination of a link reaches over the start of the next link after it. */
  predicate HidesNext(v: string, i: nat) {
    LinkAt(v, i) &&
    var end := LinkEnd(v, i).value;
    exists k :: OpenerEnd(v, i) <= k < end && Straddles(v, k, end)
  }

  predicate Straddles(v: string, k: nat, end: nat)
    requires end <= |v|
  {
    OpensAt(v, k) && NextLink(v, end) < OpenerEnd(v, k)
  }

  /** Openers that share their closing bracket share their destination, so a pass may skip from one to the next. */
  lemma {:induction false} NoLinkUntil(v: string, i: nat, p: nat)
    requires OpensAt(v, i) && LinkEnd(v, i).None? && i <= p <= OpenerEnd(v, i)
    ensures NextLink(v, p) == NextLink(v, OpenerEnd(v, i))
    decreases OpenerEnd(v, i) - p
  {
    if p < OpenerEnd(v, i) {
      if OpensAt(v, p) {
        assert LabelEnd(v, p) == LabelEnd(v, i);
      }
      NoLinkUntil(v, i, p + 1);
    }
  }

  lemma {:induction false} SkipToOpener(v: string, p: nat)
    requires p <= |v|
    ensures NextLink(v, p) == NextLink(v, NextOpener(v, p))
    decreases |v| - p
  {
    if p < |v| && !OpensAt(v, p) {
      SkipToOpener(v, p + 1);
    }
  }

  lemma {:induction false} NoLinkBefore(v: string, p: nat, q: nat)
    requires p <= q <= |v| && q <= NextLink(v, p)
    ensures NextLink(v, q) == NextLink(v, p)
    decreases q - p
  {
    if p < q {
      NoLinkBefore(v, p + 1, q);
    }
  }

  /** Restarting at `cursor` or going on from `scan` finds the same next link. */
  predicate SameNext(v: string, cursor: nat, scan: nat)
    requires cursor <= |v| && scan <= |v|
  {
    if scan <= cursor then forall k :: scan <= k < cursor ==> !Straddles(v, k, cursor)
    else NextLink(v, cursor) == NextLink(v, scan)
  }

  lemma NextLinkFrom(v: string, cursor: nat, scan: nat, i: nat)
    requires cursor <= |v| && scan <= |v| && i == NextOpener(v, scan) && cursor <= i && SameNext(v, cursor, scan)
    ensures NextLink(v, cursor) == NextLink(v, i)
  {
    SkipToOpener(v, scan);
    if scan <= cursor {
      SkipToOpener(v, cursor);
      assert NextOpener(v, cursor) == i;
    }
  }

  lemma SkipStale(v: string, cursor: nat, scan: nat)
    requires cursor <= |v| && scan <= |v| && NextOpener(v, scan) < cursor && SameNext(v, cursor, scan)
    ensures SameNext(v, cursor, OpenerEnd(v, NextOpener(v, scan)))
  {
    var i := NextOpener(v, scan);
    assert !Straddles(v, i, cursor);
    if OpenerEnd(v, i) > cursor {
      NoLinkBefore(v, cursor, OpenerEnd(v, i));
    }
  }

  lemma {:induction false} LinksLieAhead(v: string, cursor: nat, scan: nat)
    requires cursor <= |v| && scan <= |v|
    ensures forall i :: i in PassLinks(v, cursor, scan) ==> scan <= i
    decreases |v| - scan
  {
    var i := NextOpener(v, scan);
    if i < |v| {
      LinksLieAhead(v, if i < cursor || LinkEnd(v, i).None? then cursor else LinkEnd(v, i).value, OpenerEnd(v, i));
    }
  }

  /** A link that starts inside an opener the pass skips over is never reached. */
  lemma {:induction false} HiddenIsMissed(v: string, cursor: nat, scan: nat, k: nat, n: nat)
    requires scan <= k < cursor <= |v| && OpensAt(v, k) && cursor <= n < OpenerEnd(v, k)
    ensures n !in PassLinks(v, cursor, scan)
    decreases |v| - scan
  {
    var i := NextOpener(v, scan);
    var next := OpenerEnd(v, i);
    if next <= k {
      HiddenIsMissed(v, cursor, next, k, n);
    } else {
      assert LabelEnd(v, i) == LabelEnd(v, k);
      LinksLieAhead(v, cursor, next);
    }
  }

  /** No link from `cursor` on hides the next one. */
  ghost predicate NoneHides(v: string, cursor: nat)
    requires cursor <= |v|
  {
    forall i :: i in LinksFrom(v, cursor) ==> !HidesNext(v, i)
  }

  predicate SameLinks(v: string, cursor: nat, scan: nat)
    requires cursor <= |v| && scan <= |v|
  {
    PassLinks(v, cursor, scan) == LinksFrom(v, cursor)
  }

  lemma HidingDiffers(v: string, i: nat)
    requires HidesNext(v, i)
    ensures !SameLinks(v, LinkEnd(v, i).value, OpenerEnd(v, i))
  {
    var end := LinkEnd(v, i).value;
    var k :| OpenerEnd(v, i) <= k < end && Straddles(v, k, end);
    var n := NextLink(v, end);
    assert LinksFrom(v, end)[0] == n;
    HiddenIsMissed(v, end, OpenerEnd(v, i), k, n);
  }

  lemma {:induction false} SameLinksExactlyWhen(v: string, cursor: nat, scan: nat)
    requires cursor <= |v| && scan <= |v| && SameNext(v, cursor, scan)
    ensures SameLinks(v, cursor, scan) <==> NoneHides(v, cursor)
    decreases |v| - scan
  {
    var i := NextOpener(v, scan);
    if i < cursor {
      SkipStale(v, cursor, scan);
      SameLinksExactlyWhen(v, cursor, OpenerEnd(v, i));
    } else {
      NextLinkFrom(v, cursor, scan, i);
      if i < |v| {
        if LinkEnd(v, i).None? {
          NoLinkUntil(v, i, i);
          SameLinksExactlyWhen(v, cursor, OpenerEnd(v, i));
        } else {
          FirstLink(v, cursor, scan, i);
        }
      }
    }
  }

  lemma TakesFirst(v: string, cursor: nat, scan: nat, i: nat)
    requires cursor <= i < |v| && scan <= |v| && i == NextOpener(v, scan) == NextLink(v, cursor)
    ensures LinksFrom(v, cursor) == [i] + LinksFrom(v, LinkEnd(v, i).value)
    ensures PassLinks(v, cursor, scan) == [i] + PassLinks(v, LinkEnd(v, i).value, OpenerEnd(v, i))
  {
    PassStops(v, cursor, scan);
  }

  lemma SameTail(x: nat, a: seq<nat>, b: seq<nat>)
    ensures [x] + a == [x] + b <==> a == b
  {
    assert ([x] + a)[1..] == a && ([x] + b)[1..] == b;
  }

  lemma NoneHidesFirst(v: string, cursor: nat, i: nat, end: nat)
    requires cursor <= |v| && end <= |v| && LinksFrom(v, cursor) == [i] + LinksFrom(v, end)
    ensures NoneHides(v, cursor) <==> !HidesNext(v, i) && NoneHides(v, end)
  {
    assert i in [i] + LinksFrom(v, end);
    assert forall k :: k in LinksFrom(v, end) ==> k in [i] + LinksFrom(v, end);
  }

  lemma FirstLink(v: string, cursor: nat, scan: nat, i: nat)
    requires cursor <= i < |v| && scan <= |v| && i == NextOpener(v, scan) == NextLink(v, cursor)
    ensures SameLinks(v, cursor, scan) <==> NoneHides(v, cursor)
    decreases |v| - scan, 0
  {
    var end, next := LinkEnd(v, i).value, OpenerEnd(v, i);
    TakesFirst(v, cursor, scan, i);
    SameTail(i, PassLinks(v, end, next), LinksFrom(v, end));
    NoneHidesFirst(v, cursor, i, end);
    if HidesNext(v, i) {
      HidingDiffers(v, i);
    } else {
      SameLinksExactlyWhen(v, end, next);
    }
  }

  /** The pass replaces the leftmost closed link by its label and goes on after its balanced destination, again and
      again, if and only if no link it replaces hides the next one. */
  lemma PassIsLinkByLink(v: string)
    ensures PassLinks(v, 0, 0) == LinksFrom(v, 0) <==> forall i :: i in LinksFrom(v, 0) ==> !HidesNext(v, i)
    ensures (forall i :: i in LinksFrom(v, 0) ==> !HidesNext(v, i)) ==> Strip(v, 0, 0) == Unlinked(v, 0)
  {
    SameLinksExactlyWhen(v, 0, 0);
    assert SameLinks(v, 0, 0) <==> NoneHides(v, 0);
    PassReplaces(v, 0, 0);
    RestartReplaces(v, 0);
  }

  const STRADDLING := "[a](x[y) [b](z)"

  lemma StraddlingOpeners()
    ensures forall i :: OpensAt(STRADDLING, i) <==> i == 0 || i == 5 || i == 9
    ensures LabelEnd(STRADDLING, 0) == 2 && LabelEnd(STRADDLING, 5) == 11 && LabelEnd(STRADDLING, 9) == 11
  {
    var v := STRADDLING;
    assert |v| == 15 && v[2] == ']' && v[11] == ']';
    assert forall i :: 0 <= i < 15 && v[i] == '[' ==> i == 0 || i == 5 || i == 9;
    assert forall i :: 0 <= i < 15 && v[i] == ']' ==> i == 2 || i == 11;
  }

  lemma StraddlingEnds()
    ensures Close(STRADDLING, 4, 1) == Some(8) && Close(STRADDLING, 13, 1) == Some(15)
  {
    var v := STRADDLING;
    assert Close(v, 8, 0) == Some(8) && Close(v, 7, 1) == Some(8);
    assert Close(v, 5, 1) == Close(v, 6, 1) == Close(v, 7, 1);
    assert Close(v, 15, 0) == Some(15) && Close(v, 14, 1) == Some(15);
  }

  lemma StraddlingUnlinked()
    ensures Unlinked(STRADDLING, 0) == "a b"
  {
    var v := STRADDLING;
    StraddlingOpeners();
    StraddlingEnds();
    assert LinkAt(v, 0) && LinkAt(v, 9);
    assert NextLink(v, 0) == 0 && NextLink(v, 8) == 9 && NextLink(v, 15) == 15;
    assert Unlinked(v, 15) == [];
    assert Unlinked(v, 8) == v[8..9] + v[10..11] + [] == " b";
    assert Unlinked(v, 0) == v[0..0] + v[1..2] + " b";
  }

  lemma StraddlingStrip()
    ensures Strip(STRADDLING, 0, 0) == "a [b](z)"
  {
    var v := STRADDLING;
    StraddlingOpeners();
    StraddlingEnds();
    assert OpensAt(v, 0) && OpensAt(v, 5);
    assert NextOpener(v, 0) == 0 && NextOpener(v, 4) == 5 && NextOpener(v, 13) == 15;
    assert Strip(v, 8, 13) == v[8..];
    assert Strip(v, 8, 4) == v[8..];
    assert Strip(v, 0, 0) == v[0..0] + v[1..2] + v[8..];
  }

  /** Such links exist: the pass looks for openers from the end of the last opener, so one that
      starts inside a destination and ends outside swallows the next link. */
  lemma StraddlingOpenerHidesLink()
    ensures HidesNext(STRADDLING, 0)
    ensures Strip(STRADDLING, 0, 0) == "a [b](z)" && Unlinked(STRADDLING, 0) == "a b"
  {
    StraddlingOpeners();
    StraddlingEnds();
    assert LinkAt(STRADDLING, 0) && LinkAt(STRADDLING, 9) && NextLink(STRADDLING, 8) == 9;
    assert Straddles(STRADDLING, 5, 8);
    StraddlingStrip();
    StraddlingUnlinked();
  }

  // ---------------------------------------------------------------- what is left of the text

  /** `s` comes from `t` by leaving characters out. */
  predicate Subsequence(s: string, t: string)
    decreases |t|
  {
    s == [] || (t != [] && (if s[0] == t[0] then Subsequence(s[1..], t[1..]) else Subsequence(s, t[1..])))
  }

  lemma {:induction false} SubsequenceOfLonger(s: string, t: string, dropped: string)
    requires Subsequence(s, t)
    ensures Subsequence(s, dropped + t)
    decreases |dropped|
  {
    if dropped == [] {
      assert dropped + t == t;
    } else {
      assert (dropped + t)[1..] == dropped[1..] + t;
      SubsequenceOfLonger(s, t, dropped[1..]);
      if s != [] && s[0] == dropped[0] {
        SubsequenceTail(s, dropped[1..] + t);
      }
    }
  }

  lemma {:induction false} SubsequenceTail(s: string, t: string)
    requires s != [] && Subsequence(s, t)
    ensures Subsequence(s[1..], t)
    decreases |t|
  {
    if s[0] == t[0] {
      if |s| > 1 {
        if s[1] == t[0] {
          SubsequenceTail(s[1..], t[1..]);
        }
      }
    } else {
      SubsequenceTail(s, t[1..]);
      if |s| > 1 && s[1] == t[0] {
        SubsequenceTail(s[1..], t[1..]);
      }
    }
  }

  lemma {:induction false} KeepSubsequence(kept: string, s: string, t: string)
    requires Subsequence(s, t)
    ensures Subsequence(kept + s, kept + t)
    decreases |kept|
  {
    if kept == [] {
      assert kept + s == s && kept + t == t;
    } else {
      assert (kept + s)[1..] == kept[1..] + s && (kept + t)[1..] == kept[1..] + t;
      KeepSubsequence(kept[1..], s, t);
    }
  }

  predicate LeavesOut(v: string, cursor: nat, scan: nat)
    requires cursor <= |v| && scan <= |v|
  {
    Subsequence(Strip(v, cursor, scan), v[cursor..])
  }

  lemma SubsequenceOfItself(s: string)
    ensures Subsequence(s, s)
  {
    KeepSubsequence(s, [], []);
    assert s + [] == s;
  }

  lemma LinkLeavesOut(v: string, cursor: nat, i: nat, close: nat, end: nat, rest: string)
    requires cursor <= i < close <= end <= |v| && Subsequence(rest, v[end..])
    ensures Subsequence(v[cursor..i] + v[i + 1..close] + rest, v[cursor..])
  {
    SpliceLeavesOut(v[cursor..i], v[i..i + 1], v[i + 1..close], v[close..end], rest, v[end..]);
    CutUp(v, cursor, i, close, end);
  }

  /** Stripping only leaves text out. */
  lemma {:induction false} StripLeavesOut(v: string, cursor: nat, scan: nat)
    requires cursor <= |v| && scan <= |v|
    ensures LeavesOut(v, cursor, scan)
    decreases |v| - scan
  {
    var i := NextOpener(v, scan);
    if i == |v| {
      SubsequenceOfItself(v[cursor..]);
    } else if i < cursor || LinkEnd(v, i).None? {
      StripLeavesOut(v, cursor, OpenerEnd(v, i));
    } else {
      var end, next := LinkEnd(v, i).value, OpenerEnd(v, i);
      StripLeavesOut(v, end, next);
      StripSplices(v, cursor, scan);
      LinkLeavesOut(v, cursor, i, LabelEnd(v, i), end, Strip(v, end, next));
    }
  }

  lemma CutUp(v: string, a: nat, b: nat, c: nat, d: nat)
    requires a <= b < c <= d <= |v|
    ensures v[a..] == v[a..b] + (v[b..b + 1] + (v[b + 1..c] + (v[c..d] + v[d..])))
  {
    assert v[c..] == v[c..d] + v[d..];
    assert v[b + 1..] == v[b + 1..c] + v[c..];
    assert v[b..] == v[b..b + 1] + v[b + 1..];
    assert v[a..] == v[a..b] + v[b..];
  }

  lemma SpliceLeavesOut(before: string, open: string, link: string, after: string, s: string, t: string)
    requires Subsequence(s, t)
    ensures Subsequence(before + link + s, before + (open + (link + (after + t))))
  {
    SubsequenceOfLonger(s, t, after);
    KeepSubsequence(link, s, after + t);
    SubsequenceOfLonger(link + s, link + (after + t), open);
    KeepSubsequence(before, link + s, open + (link + (after + t)));
    assert before + link + s == before + (link + s);
  }

  lemma {:induction false} NothingToStrip(v: string, scan: nat)
    requires scan <= |v| && forall i :: 0 <= i < |v| ==> !LinkAt(v, i)
    ensures Strip(v, 0, scan) == v
    decreases |v| - scan
  {
    var i := NextOpener(v, scan);
    if i < |v| {
      assert !LinkAt(v, i);
      NothingToStrip(v, OpenerEnd(v, i));
    }
  }

  /** The pass comes to the first link, and gets shorter there. */
  lemma {:induction false} FirstLinkShortens(v: string, scan: nat)
    requires scan <= |v| && NextLink(v, 0) < |v| && NextLink(v, scan) == NextLink(v, 0)
    ensures |Strip(v, 0, scan)| < |v|
    decreases |v| - scan
  {
    var i := NextOpener(v, scan);
    SkipToOpener(v, scan);
    if LinkEnd(v, i).None? {
      NoLinkUntil(v, i, i);
      FirstLinkShortens(v, OpenerEnd(v, i));
    } else {
      StripSplices(v, 0, scan);
      NeverLonger(v, LinkEnd(v, i).value, OpenerEnd(v, i));
    }
  }

  lemma {:induction false} NeverLonger(v: string, cursor: nat, scan: nat)
    requires cursor <= |v| && scan <= |v|
    ensures |Strip(v, cursor, scan)| <= |v| - cursor
    decreases |v| - scan
  {
    var i := NextOpener(v, scan);
    if i < |v| {
      NeverLonger(v, if i < cursor || LinkEnd(v, i).None? then cursor else LinkEnd(v, i).value, OpenerEnd(v, i));
    }
  }

  /** A text is left as it is exactly when no destination in it is closed. */
  lemma UnclosedStays(v: string)
    ensures Strip(v, 0, 0) == v <==> forall i :: 0 <= i < |v| ==> !LinkAt(v, i)
  {
    if NextLink(v, 0) < |v| {
      FirstLinkShortens(v, 0);
      assert LinkAt(v, NextLink(v, 0));
    } else {
      NothingToStrip(v, 0);
    }
  }

  // ---------------------------------------------------------------- bare addresses

  predicate Punctuation(c: char) {
    c in ".,;:!?"
  }

  function Occurrences(s: string, c: char): nat {
    if s == [] then 0 else Occurrences(s[..|s| - 1], c) + if s[|s| - 1] == c then 1 else 0
  }

  predicate EndsWith(s: string, c: char) {
    s != [] && s[|s| - 1] == c
  }

  predicate OverClosed(s: string) {
    Occurrences(s, ')') > Occurrences(s, '(')
  }

  /** The address ends at `a`: from there to `b` it closes parentheses too often, and punctuation follows. No longer
      run of punctuation and no further parenthesis could be taken. */
  predicate AddressEnds(url: string, a: nat, b: nat) {
    && a <= b <= |url|
    && (forall k :: a <= k < b ==> url[k] == ')') && (forall k :: b <= k < |url| ==> Punctuation(url[k]))
    && (b > 0 ==> !Punctuation(url[b - 1]))
    && !(EndsWith(url[..a], ')') && OverClosed(url[..a]))
    && (a < b ==> OverClosed(url[..a + 1]))
  }

  /** What is left of an address in the prose. */
  ghost predicate IsLeftOf(url: string, suffix: string) {
    exists a: nat, b: nat :: AddressEnds(url, a, b) && suffix == url[a..]
  }

  /** The parentheses that an address closes too often, and the punctuation after it. */
  method AddressSuffix(url: string) returns (suffix: string)
    ensures IsLeftOf(url, suffix)
  {
    suffix := "";
    var candidate := url;
    while candidate != [] && Punctuation(candidate[|candidate| - 1])
      invariant |candidate| <= |url| && candidate == url[..|candidate|] && suffix == url[|candidate|..]
      invariant forall k :: |candidate| <= k < |url| ==> Punctuation(url[k])
    {
      suffix := [candidate[|candidate| - 1]] + suffix;
      candidate := candidate[..|candidate| - 1];
    }
    ghost var b := |candidate|;
    while EndsWith(candidate, ')') && OverClosed(candidate)
      invariant |candidate| <= b && candidate == url[..|candidate|] && suffix == url[|candidate|..]
      invariant forall k :: |candidate| <= k < b ==> url[k] == ')'
      invariant |candidate| < b ==> OverClosed(url[..|candidate| + 1])
      decreases |candidate|
    {
      suffix := ")" + suffix;
      candidate := candidate[..|candidate| - 1];
    }
    assert AddressEnds(url, |candidate|, b);
  }
}
